/** The manifest as a custom section of a wasm module: scanning, appending, reading. */
module ParserModuleManifest {
  import opened Prelude
  import opened Arithmetic
  import opened Base128

  // Sections 5.2.2, 5.5.2 and 5.5.3 of the WebAssembly Core Specification give integers, sections and custom
  // sections their form.

  const PREAMBLE: Bytes := [0x00, 0x61, 0x73, 0x6D, 0x01, 0x00, 0x00, 0x00]

  /** "pj_parser_module_manifest" */
  const MANIFEST_NAME: Bytes := [
    0x70, 0x6a, 0x5f, 0x70, 0x61, 0x72, 0x73, 0x65, 0x72, 0x5f, 0x6d, 0x6f, 0x64,
    0x75, 0x6c, 0x65, 0x5f, 0x6d, 0x61, 0x6e, 0x69, 0x66, 0x65, 0x73, 0x74]

  // ---------- unsigned LEB128, 32 bits ----------

  const MAX_BYTES := 5

  datatype Read<+T> = Read(value: T, rest: Bytes) | Malformed

  /** The first value too large for byte `i` and beyond. */
  function Limit(i: nat): (n: nat)
    requires i < MAX_BYTES
    ensures n > 0
    decreases MAX_BYTES - i
  {
    if i == MAX_BYTES - 1 then 0x10 else 0x80 * Limit(i + 1)
  }

  lemma LimitIsWord()
    ensures Limit(0) == TWO_TO_THE_32
  {
    assert Limit(2) == 0x4_0000;
  }

  /** Byte `i` on of an integer: the fifth byte may use its low four bits only. */
  function ReadU32From(b: Bytes, i: nat): (r: Read<nat>)
    requires i < MAX_BYTES
    ensures r.Read? ==> r.value < Limit(i) && |r.rest| < |b|
    decreases MAX_BYTES - i
  {
    if |b| == 0 || (i == MAX_BYTES - 1 && b[0] >= 0x10) then Malformed
    else if b[0] < 0x80 then Read(b[0], b[1..])
    else
      var r := ReadU32From(b[1..], i + 1);
      if r.Malformed? then Malformed else Read(b[0] % 0x80 + 0x80 * r.value, r.rest)
  }

  function ReadU32(b: Bytes): (r: Read<uint32>)
    ensures r.Read? ==> |r.rest| < |b|
  {
    LimitIsWord();
    var r := ReadU32From(b, 0);
    if r.Malformed? then Malformed else Read(r.value, r.rest)
  }

  lemma {:induction false} U32BackFrom(v: nat, i: nat, t: Bytes)
    requires i < MAX_BYTES && v < Limit(i)
    ensures ReadU32From(EncVarint(v) + t, i) == Read(v, t)
    decreases v
  {
    if v < 0x80 {
      assert (EncVarint(v) + t)[1..] == t;
    } else {
      assert (EncVarint(v) + t)[1..] == EncVarint(v / 0x80) + t;
      U32BackFrom(v / 0x80, i + 1, t);
    }
  }

  /** Every 32-bit value reads back. */
  lemma U32Back(v: uint32, t: Bytes)
    ensures ReadU32(EncVarint(v) + t) == Read(v, t)
  {
    LimitIsWord();
    U32BackFrom(v, 0, t);
  }

  lemma {:induction false} U32FromExtends(a: Bytes, t: Bytes, i: nat)
    requires i < MAX_BYTES && ReadU32From(a, i).Read?
    ensures ReadU32From(a + t, i) == Read(ReadU32From(a, i).value, ReadU32From(a, i).rest + t)
    decreases |a|
  {
    assert (a + t)[1..] == a[1..] + t;
    if a[0] >= 0x80 {
      U32FromExtends(a[1..], t, i + 1);
    }
  }

  lemma U32Extends(a: Bytes, t: Bytes)
    requires ReadU32(a).Read?
    ensures ReadU32(a + t) == Read(ReadU32(a).value, ReadU32(a).rest + t)
  {
    U32FromExtends(a, t, 0);
  }

  ghost predicate Progress(whole: Read<nat>, b: Bytes, i: nat, value: nat, scale: nat)
    requires i < MAX_BYTES
  {
    var here := ReadU32From(b, i);
    && value < scale && scale * Limit(i) == TWO_TO_THE_32
    && (whole.Read? <==> here.Read?)
    && (here.Read? ==> whole.rest == here.rest && whole.value == value + scale * here.value)
  }

  /** One more byte joins the value read so far. */
  lemma OneByte(whole: Read<nat>, b: Bytes, i: nat, value: nat, scale: nat)
    requires i < MAX_BYTES && |b| > 0 && (i == MAX_BYTES - 1 ==> b[0] < 0x10) && Progress(whole, b, i, value, scale)
    ensures JoinGroup(value, b[0] % 0x80, scale) <= UINT32_MAX
    ensures b[0] < 0x80 ==> whole == Read(JoinGroup(value, b[0] % 0x80, scale), b[1..])
    ensures b[0] >= 0x80 ==> i + 1 < MAX_BYTES && Progress(whole, b[1..], i + 1, JoinGroup(value, b[0] % 0x80, scale), 0x80 * scale)
  {
    var payload, limit := b[0] % 0x80, Limit(i);
    if b[0] < 0x80 {
      Accumulate(TWO_TO_THE_32, value, scale, payload, limit, 0);
      assert ReadU32From(b, i) == Read(payload, b[1..]);
    } else {
      var next := ReadU32From(b[1..], i + 1);
      var later := if next.Read? then next.value else 0;
      Accumulate(TWO_TO_THE_32, value, scale, payload, limit, later);
      assert next.Read? ==> ReadU32From(b, i) == Read(payload + 0x80 * later, next.rest);
      assert limit == 0x80 * Limit(i + 1);
      SwapFactors(0x80, scale, Limit(i + 1));
    }
  }

  /** Reads at most five bytes from `start`; the fifth always ends the loop. */
  method ReadVarUint32(bytes: Bytes, start: nat) returns (ok: bool, value: uint32, position: nat)
    requires start <= |bytes|
    ensures ok <==> ReadU32(bytes[start..]).Read?
    ensures start <= position
    ensures ok ==> position <= |bytes| && ReadU32(bytes[start..]) == Read(value, bytes[position..])
  {
    ok, value, position := false, 0, start;
    var index, scale := 0, 1;
    ghost var whole := ReadU32From(bytes[start..], 0);
    LimitIsWord();
    while true
      invariant index < MAX_BYTES && start <= position <= |bytes| && 0 < scale
      invariant Progress(whole, bytes[position..], index, value, scale)
      decreases MAX_BYTES - index
    {
      if position >= |bytes| {
        return;
      }
      ghost var before := bytes[position..];
      var byte := bytes[position];
      position := position + 1;
      assert before[0] == byte && before[1..] == bytes[position..];
      if index == MAX_BYTES - 1 && byte >= 0x10 {
        return;
      }
      OneByte(whole, before, index, value, scale);
      value := JoinGroup(value, byte % 0x80, scale);
      if byte < 0x80 {
        ok := true;
        return;
      }
      scale := 0x80 * scale;
      index := index + 1;
    }
  }

  method AppendVarUint32(output: Bytes, value: uint32) returns (out: Bytes)
    ensures out == output + EncVarint(value)
  {
    out := output;
    var v := value;
    while v >= 0x80
      invariant 0 <= v && out + EncVarint(v) == output + EncVarint(value)
    {
      assert out + EncVarint(v) == (out + [v % 0x80 + 0x80]) + EncVarint(v / 0x80);
      out := out + [v % 0x80 + 0x80];
      v := v / 0x80;
    }
    out := out + [v];
  }

  /** The size counts the bytes that AppendVarUint32 adds. */
  method VarUint32Size(value: uint32) returns (size: nat)
    ensures size == |EncVarint(value)|
  {
    size := 1;
    var v := value;
    while v >= 0x80
      invariant 0 <= v && size - 1 + |EncVarint(v)| == |EncVarint(value)|
    {
      v := v / 0x80;
      size := size + 1;
    }
  }

  // ---------- scanning ----------

  /** How many manifest sections there are, and what the last of them holds. */
  datatype Found = Found(count: nat, manifest: Bytes)

  datatype ManifestError =
    | BadPreamble | BadSectionSize | SectionTooLong | BadNameSize | NameTooLong
    | AlreadyPresent | ManifestTooLarge | OutputTooLarge | NoManifest | SeveralManifests

  /** What one section adds; only custom sections are looked into. */
  function ScanSection(id: byte, section: Bytes, found: Found): Result<Found, ManifestError> {
    if id != 0 then Ok(found)
    else
      var size := ReadU32(section);
      if size.Malformed? then Err(BadNameSize)
      else if size.value > |size.rest| then Err(NameTooLong)
      else if size.rest[..size.value] == MANIFEST_NAME then Ok(Found(found.count + 1, size.rest[size.value..]))
      else Ok(found)
  }

  function ScanSections(b: Bytes, found: Found): Result<Found, ManifestError>
    decreases |b|
  {
    if |b| == 0 then Ok(found)
    else
      var size := ReadU32(b[1..]);
      if size.Malformed? then Err(BadSectionSize)
      else if size.value > |size.rest| then Err(SectionTooLong)
      else
        var next := ScanSection(b[0], size.rest[..size.value], found);
        if next.Err? then next else ScanSections(size.rest[size.value..], next.value)
  }

  const NOTHING_FOUND := Found(0, [])

  function Scan(wasm: Bytes): Result<Found, ManifestError> {
    if |wasm| < |PREAMBLE| || wasm[..|PREAMBLE|] != PREAMBLE then Err(BadPreamble)
    else ScanSections(wasm[|PREAMBLE|..], NOTHING_FOUND)
  }

  function EncSection(payload: Bytes): Bytes {
    [0] + (EncVarint(|payload|) + payload)
  }

  function ManifestPayload(manifest: Bytes): Bytes {
    EncVarint(|MANIFEST_NAME|) + (MANIFEST_NAME + manifest)
  }

  function ManifestSection(manifest: Bytes): Bytes {
    EncSection(ManifestPayload(manifest))
  }

  function AppendManifest(wasm: Bytes, manifest: Bytes): Result<Bytes, ManifestError> {
    var found := Scan(wasm);
    if found.Err? then Err(found.error)
    else if found.value.count != 0 then Err(AlreadyPresent)
    else if |manifest| > UINT32_MAX then Err(ManifestTooLarge)
    else if |ManifestPayload(manifest)| > UINT32_MAX || |wasm + ManifestSection(manifest)| > UINT64_MAX then Err(OutputTooLarge)
    else Ok(wasm + ManifestSection(manifest))
  }

  function ReadManifest(wasm: Bytes): Result<Bytes, ManifestError> {
    var found := Scan(wasm);
    if found.Err? then Err(found.error)
    else if found.value.count == 0 then Err(NoManifest)
    else if found.value.count != 1 then Err(SeveralManifests)
    else Ok(found.value.manifest)
  }

  lemma SectionStep(b: Bytes, rest: Bytes, size: uint32, found: Found)
    requires |b| > 0 && ReadU32(b[1..]) == Read(size, rest)
    ensures size > |rest| ==> ScanSections(b, found) == Err(SectionTooLong)
    ensures size <= |rest| ==>
              var next := ScanSection(b[0], rest[..size], found);
              ScanSections(b, found) == if next.Err? then next else ScanSections(rest[size..], next.value)
  {
  }

  lemma FirstSectionExtends(a: Bytes, t: Bytes, rest: Bytes, size: uint32, found: Found)
    requires |a| > 0 && ReadU32(a[1..]) == Read(size, rest) && size <= |rest|
    ensures var next := ScanSection(a[0], rest[..size], found);
            ScanSections(a + t, found) == if next.Err? then next else ScanSections(rest[size..] + t, next.value)
  {
    assert (a + t)[0] == a[0] && (a + t)[1..] == a[1..] + t;
    U32Extends(a[1..], t);
    SectionStep(a + t, rest + t, size, found);
    assert (rest + t)[..size] == rest[..size] && (rest + t)[size..] == rest[size..] + t;
  }

  /** Scanning is stable under extension: more sections are scanned from where the first ones end. */
  lemma {:induction false} ScanExtends(a: Bytes, t: Bytes, found: Found)
    requires ScanSections(a, found).Ok?
    ensures ScanSections(a + t, found) == ScanSections(t, ScanSections(a, found).value)
    decreases |a|
  {
    if |a| == 0 {
      assert a + t == t;
    } else {
      var size := ReadU32(a[1..]);
      FirstSectionExtends(a, t, size.rest, size.value, found);
      ScanExtends(size.rest[size.value..], t, ScanSection(a[0], size.rest[..size.value], found).value);
    }
  }

  lemma PayloadScanned(manifest: Bytes, found: Found)
    ensures ScanSection(0, ManifestPayload(manifest), found) == Ok(Found(found.count + 1, manifest))
  {
    U32Back(|MANIFEST_NAME|, MANIFEST_NAME + manifest);
    assert (MANIFEST_NAME + manifest)[..|MANIFEST_NAME|] == MANIFEST_NAME;
    assert (MANIFEST_NAME + manifest)[|MANIFEST_NAME|..] == manifest;
  }

  lemma SectionScanned(payload: Bytes, found: Found)
    requires |payload| <= UINT32_MAX && ScanSection(0, payload, found).Ok?
    ensures ScanSections(EncSection(payload), found) == ScanSection(0, payload, found)
  {
    var b := EncSection(payload);
    assert b[1..] == EncVarint(|payload|) + payload;
    U32Back(|payload|, payload);
    assert payload[..|payload|] == payload && payload[|payload|..] == [];
  }

  /** A module that scans is the preamble and then its sections. */
  lemma ScanOfExtended(wasm: Bytes, t: Bytes)
    requires Scan(wasm).Ok?
    ensures Scan(wasm + t) == ScanSections(t, Scan(wasm).value)
  {
    assert (wasm + t)[..|PREAMBLE|] == wasm[..|PREAMBLE|];
    assert (wasm + t)[|PREAMBLE|..] == wasm[|PREAMBLE|..] + t;
    ScanExtends(wasm[|PREAMBLE|..], t, NOTHING_FOUND);
  }

  /** For every module without a manifest and every manifest in range: the input stays as a prefix, reading
      gives the manifest back, and a second append is refused, whatever it would append. */
  lemma AppendThenRead(wasm: Bytes, manifest: Bytes, second: Bytes)
    requires AppendManifest(wasm, manifest).Ok?
    ensures var out := AppendManifest(wasm, manifest).value;
            && wasm <= out
            && ReadManifest(out) == Ok(manifest)
            && AppendManifest(out, second) == Err(AlreadyPresent)
  {
    ScanOfExtended(wasm, ManifestSection(manifest));
    PayloadScanned(manifest, Scan(wasm).value);
    SectionScanned(ManifestPayload(manifest), Scan(wasm).value);
  }

  /** Appending succeeds exactly on well-formed modules without a manifest, while the sizes fit. */
  lemma AppendSucceeds(wasm: Bytes, manifest: Bytes)
    ensures AppendManifest(wasm, manifest).Ok? <==>
              && ReadManifest(wasm) == Err(NoManifest)
              && 26 + |manifest| <= UINT32_MAX
              && |wasm| + 27 + |EncVarint(26 + |manifest|)| + |manifest| <= UINT64_MAX
  {
    assert |MANIFEST_NAME| == 25 && EncVarint(25) == [25];
    assert |ManifestPayload(manifest)| == 26 + |manifest|;
    assert Scan(wasm) != Err(NoManifest) by { ScanErrors(wasm); }
  }

  lemma {:induction false} SectionErrors(b: Bytes, found: Found)
    ensures ScanSections(b, found) != Err(NoManifest)
    decreases |b|
  {
    if |b| > 0 && ReadU32(b[1..]).Read? {
      var size := ReadU32(b[1..]);
      if size.value <= |size.rest| {
        var next := ScanSection(b[0], size.rest[..size.value], found);
        if next.Ok? {
          SectionErrors(size.rest[size.value..], next.value);
        }
      }
    }
  }

  lemma ScanErrors(wasm: Bytes)
    ensures Scan(wasm) != Err(NoManifest)
  {
    if |wasm| >= |PREAMBLE| {
      SectionErrors(wasm[|PREAMBLE|..], NOTHING_FOUND);
    }
  }

  // ---------- the loops over a module ----------

  lemma SectionAt(wasm: Bytes, position: nat, size: nat)
    requires position + size <= |wasm|
    ensures wasm[position..][..size] == wasm[position..position + size]
    ensures wasm[position..][size..] == wasm[position + size..]
  {
  }

  /** The section at `start` gives `r`, and scanning goes on at `end` if it is sound. */
  ghost predicate Leads(wasm: Bytes, start: nat, found: Found, r: Result<Found, ManifestError>, end: nat) {
    && start < |wasm|
    && (r.Err? ==> ScanSections(wasm[start..], found) == r)
    && (r.Ok? ==> start < end <= |wasm| && ScanSections(wasm[start..], found) == ScanSections(wasm[end..], r.value))
  }

  lemma SectionTooLongAt(wasm: Bytes, start: nat, position: nat, size: uint32, found: Found)
    requires start < |wasm| && position <= |wasm| && ReadU32(wasm[start + 1..]) == Read(size, wasm[position..])
    requires position + size > |wasm|
    ensures Leads(wasm, start, found, Err(SectionTooLong), start)
  {
    assert wasm[start..][0] == wasm[start] && wasm[start..][1..] == wasm[start + 1..];
    SectionStep(wasm[start..], wasm[position..], size, found);
  }

  lemma StepGives(b: Bytes, rest: Bytes, size: uint32, section: Bytes, tail: Bytes, found: Found, r: Result<Found, ManifestError>)
    requires |b| > 0 && ReadU32(b[1..]) == Read(size, rest) && size <= |rest|
    requires section == rest[..size] && tail == rest[size..] && r == ScanSection(b[0], section, found)
    ensures r.Err? ==> ScanSections(b, found) == r
    ensures r.Ok? ==> ScanSections(b, found) == ScanSections(tail, r.value)
  {
    SectionStep(b, rest, size, found);
  }

  lemma SectionLeads(wasm: Bytes, start: nat, position: nat, size: uint32, end: nat, found: Found, r: Result<Found, ManifestError>)
    requires start < position && position + size == end <= |wasm| && ReadU32(wasm[start + 1..]) == Read(size, wasm[position..])
    requires r == ScanSection(wasm[start], wasm[position..end], found)
    ensures Leads(wasm, start, found, r, end)
  {
    assert wasm[start..][0] == wasm[start] && wasm[start..][1..] == wasm[start + 1..];
    SectionAt(wasm, position, size);
    StepGives(wasm[start..], wasm[position..], size, wasm[position..end], wasm[end..], found, r);
  }

  lemma BadSizeAt(wasm: Bytes, start: nat, found: Found)
    requires start < |wasm| && ReadU32(wasm[start + 1..]).Malformed?
    ensures Leads(wasm, start, found, Err(BadSectionSize), start)
  {
    assert wasm[start..][1..] == wasm[start + 1..];
  }

  method ScanManifestSections(wasm: Bytes) returns (r: Result<Found, ManifestError>)
    ensures r == Scan(wasm)
  {
    if |wasm| < |PREAMBLE| || wasm[..|PREAMBLE|] != PREAMBLE {
      return Err(BadPreamble);
    }
    r := ScanFrom(wasm, |PREAMBLE|);
  }

  /** One turn of the loop: the section at `start`, and where the next one starts. */
  method OneSection(wasm: Bytes, start: nat, found: Found) returns (r: Result<Found, ManifestError>, end: nat)
    requires start < |wasm|
    ensures Leads(wasm, start, found, r, end)
  {
    end := start;
    var ok, size, position := ReadVarUint32(wasm, start + 1);
    if !ok {
      BadSizeAt(wasm, start, found);
      return Err(BadSectionSize), end;
    }
    if size > |wasm| - position {
      SectionTooLongAt(wasm, start, position, size, found);
      return Err(SectionTooLong), end;
    }
    end := position + size;
    r := ScanCustomSection(wasm[start], wasm[position..end], found);
    SectionLeads(wasm, start, position, size, end, found, r);
  }

  method ScanFrom(wasm: Bytes, start: nat) returns (r: Result<Found, ManifestError>)
    requires start <= |wasm|
    ensures r == ScanSections(wasm[start..], NOTHING_FOUND)
  {
    var position := start;
    r := Ok(NOTHING_FOUND);
    while position < |wasm|
      invariant position <= |wasm| && r.Ok? && ScanSections(wasm[position..], r.value) == ScanSections(wasm[start..], NOTHING_FOUND)
    {
      r, position := OneSection(wasm, position, r.value);
      if r.Err? {
        return;
      }
    }
  }

  method ScanCustomSection(id: byte, section: Bytes, found: Found) returns (r: Result<Found, ManifestError>)
    ensures r == ScanSection(id, section, found)
  {
    r := Ok(found);
    if id == 0 {
      assert section[0..] == section;
      var ok, size, position := ReadVarUint32(section, 0);
      if !ok {
        return Err(BadNameSize);
      }
      if size > |section| - position {
        return Err(NameTooLong);
      }
      var name := section[position..position + size];
      assert name == section[position..][..size] && section[position + size..] == section[position..][size..];
      if name == MANIFEST_NAME {
        r := Ok(Found(found.count + 1, section[position + size..]));
      }
    }
  }

  method AppendManifestSection(wasm: Bytes, manifest: Bytes) returns (r: Result<Bytes, ManifestError>)
    ensures r == AppendManifest(wasm, manifest)
  {
    var found := ScanManifestSections(wasm);
    if found.Err? {
      return Err(found.error);
    }
    if found.value.count != 0 {
      return Err(AlreadyPresent);
    }
    if |manifest| > UINT32_MAX {
      return Err(ManifestTooLarge);
    }
    var nameSize := |MANIFEST_NAME|;
    var nameSizeBytes := VarUint32Size(nameSize);
    var payloadSize := nameSizeBytes + nameSize + |manifest|;
    if payloadSize > UINT32_MAX {
      return Err(OutputTooLarge);
    }
    var sizeBytes := VarUint32Size(payloadSize);
    var headerSize := 1 + sizeBytes;
    if |wasm| > UINT64_MAX - headerSize || payloadSize > UINT64_MAX - |wasm| - headerSize {
      return Err(OutputTooLarge);
    }
    var output := AppendSection(wasm, payloadSize, manifest);
    r := Ok(output);
  }

  method AppendSection(wasm: Bytes, payloadSize: uint32, manifest: Bytes) returns (output: Bytes)
    requires payloadSize == |ManifestPayload(manifest)|
    ensures output == wasm + ManifestSection(manifest)
  {
    ghost var size, name := EncVarint(payloadSize), EncVarint(|MANIFEST_NAME|);
    output := wasm + [0];
    output := AppendVarUint32(output, payloadSize);
    output := AppendVarUint32(output, |MANIFEST_NAME|);
    output := output + MANIFEST_NAME;
    output := output + manifest;
    assert ((wasm + [0]) + size + name + MANIFEST_NAME) + manifest == wasm + ([0] + (size + (name + (MANIFEST_NAME + manifest))));
  }

  method ReadManifestSection(wasm: Bytes) returns (r: Result<Bytes, ManifestError>)
    ensures r == ReadManifest(wasm)
  {
    var found := ScanManifestSections(wasm);
    if found.Err? {
      return Err(found.error);
    }
    if found.value.count == 0 {
      return Err(NoManifest);
    }
    if found.value.count != 1 {
      return Err(SeveralManifests);
    }
    r := Ok(found.value.manifest);
  }

  // ---------- modules made of sections ----------

  /** The fifth byte of an integer has four bits to give; more bytes than that, or none that ends it, are refused. */
  predicate IsU32(b: Bytes, n: nat) {
    EndsAt(b, n) && n <= 5 && (n == 5 ==> b[4] < 0x10)
  }

  lemma {:induction false} U32FromExactly(b: Bytes, i: nat, n: nat)
    requires i < 5 && EndsAt(b, n) && i + n <= 5 && (i + n == 5 ==> b[n - 1] < 0x10)
    ensures ReadU32From(b, i) == Read(Base128Value(b[..n]), b[n..])
    decreases n
  {
    if n == 1 {
      OneEndsAt(b);
    } else {
      RestEndsAt(b, n);
      U32FromExactly(b[1..], i + 1, n - 1);
    }
  }

  lemma {:induction false} U32FromEnds(b: Bytes, i: nat) returns (n: nat)
    requires i < 5 && ReadU32From(b, i).Read?
    ensures EndsAt(b, n) && i + n <= 5 && (i + n == 5 ==> b[n - 1] < 0x10)
    decreases |b|
  {
    if b[0] < 0x80 {
      n := 1;
    } else {
      n := U32FromEnds(b[1..], i + 1);
      assert b[n] == b[1..][n - 1] && forall k :: 0 < k < n ==> b[k] == b[1..][k - 1];
      n := n + 1;
    }
  }

  /** An integer is read exactly if one is there, with its value and what is behind it. */
  lemma U32IsRead(b: Bytes, n: nat)
    requires IsU32(b, n)
    ensures ReadU32(b) == Read(Base128Value(b[..n]), b[n..])
  {
    U32FromExactly(b, 0, n);
  }

  lemma U32IsRefused(b: Bytes)
    requires forall n: nat :: !IsU32(b, n)
    ensures ReadU32(b) == Malformed
  {
    if ReadU32(b).Read? {
      var n := U32FromEnds(b, 0);
      assert IsU32(b, n);
    }
  }

  /** A section: a custom one has a name before its data, any other has any bytes. */
  datatype Section = Custom(name: Bytes, data: Bytes) | Other(id: byte, body: Bytes)

  function BodyOf(s: Section): Bytes {
    match s
    case Custom(name, data) => EncVarint(|name|) + (name + data)
    case Other(_, body) => body
  }

  predicate IsSection(s: Section) {
    (s.Other? ==> s.id != 0) && (s.Custom? ==> |s.name| <= UINT32_MAX) && |BodyOf(s)| <= UINT32_MAX
  }

  /** The sections one behind the other: the number of the kind, the size, the body. */
  function Sections(ss: seq<Section>): Bytes {
    if |ss| == 0 then []
    else [if ss[0].Custom? then 0 else ss[0].id] + (EncVarint(|BodyOf(ss[0])|) + (BodyOf(ss[0]) + Sections(ss[1..])))
  }

  const MANIFEST_SECTION: string := "pj_parser_module_manifest"

  predicate IsManifestName(name: Bytes) {
    |name| == |MANIFEST_SECTION| && forall i :: 0 <= i < |name| ==> name[i] == MANIFEST_SECTION[i] as int
  }

  /** What the manifest sections hold. */
  function Manifests(ss: seq<Section>): seq<Bytes> {
    if |ss| == 0 then []
    else (if ss[0].Custom? && IsManifestName(ss[0].name) then [ss[0].data] else []) + Manifests(ss[1..])
  }

  lemma NameSpelled(name: Bytes)
    ensures IsManifestName(name) <==> name == MANIFEST_NAME
  {
    if IsManifestName(name) {
      forall i | 0 <= i < |name| ensures name[i] == MANIFEST_NAME[i] {
      }
    }
  }

  lemma SectionFound(s: Section, found: Found)
    requires IsSection(s)
    ensures ScanSection(if s.Custom? then 0 else s.id, BodyOf(s), found) ==
            Ok(if s.Custom? && IsManifestName(s.name) then Found(found.count + 1, s.data) else found)
  {
    if s.Custom? {
      NameSpelled(s.name);
      U32Back(|s.name|, s.name + s.data);
      assert (s.name + s.data)[..|s.name|] == s.name && (s.name + s.data)[|s.name|..] == s.data;
    }
  }

  lemma FirstOfSections(id: byte, body: Bytes, rest: Bytes, found: Found)
    requires |body| <= UINT32_MAX && ScanSection(id, body, found).Ok?
    ensures ScanSections([id] + (EncVarint(|body|) + (body + rest)), found) == ScanSections(rest, ScanSection(id, body, found).value)
  {
    var b := [id] + (EncVarint(|body|) + (body + rest));
    assert b[1..] == EncVarint(|body|) + (body + rest);
    U32Back(|body|, body + rest);
    assert (body + rest)[..|body|] == body && (body + rest)[|body|..] == rest;
    SectionStep(b, body + rest, |body|, found);
  }

  /** How many there are, and what the last of them holds. */
  function CountedIn(ss: seq<Section>, found: Found): Found {
    var ms := Manifests(ss);
    Found(found.count + |ms|, if ms == [] then found.manifest else ms[|ms| - 1])
  }

  function Counted(s: Section, found: Found): Found {
    if s.Custom? && IsManifestName(s.name) then Found(found.count + 1, s.data) else found
  }

  lemma CountedNext(ss: seq<Section>, found: Found)
    requires |ss| > 0
    ensures CountedIn(ss, found) == CountedIn(ss[1..], Counted(ss[0], found))
  {
  }

  lemma SectionsStep(ss: seq<Section>, found: Found)
    requires |ss| > 0 && IsSection(ss[0])
    ensures ScanSections(Sections(ss), found) == ScanSections(Sections(ss[1..]), Counted(ss[0], found))
  {
    var id := if ss[0].Custom? then 0 else ss[0].id;
    SectionFound(ss[0], found);
    FirstOfSections(id, BodyOf(ss[0]), Sections(ss[1..]), found);
  }

  /** Scanning counts the manifest sections and keeps the last; nothing else matters, and no other section is looked into. */
  lemma {:induction false} ScanCountsManifests(ss: seq<Section>, found: Found)
    requires forall i :: 0 <= i < |ss| ==> IsSection(ss[i])
    ensures ScanSections(Sections(ss), found) == Ok(CountedIn(ss, found))
    decreases |ss|
  {
    if |ss| > 0 {
      SectionsStep(ss, found);
      CountedNext(ss, found);
      ScanCountsManifests(ss[1..], Counted(ss[0], found));
    }
  }

  /** A module of the given sections: the magic number, version 1, and the sections. */
  predicate IsModule(wasm: Bytes, ss: seq<Section>) {
    (forall i :: 0 <= i < |ss| ==> IsSection(ss[i])) && wasm == [0x00, 0x61, 0x73, 0x6D, 0x01, 0x00, 0x00, 0x00] + Sections(ss)
  }

  lemma ModuleScanned(wasm: Bytes, ss: seq<Section>)
    requires IsModule(wasm, ss)
    ensures Scan(wasm) == Ok(CountedIn(ss, NOTHING_FOUND))
  {
    assert wasm[..8] == PREAMBLE && wasm[8..] == Sections(ss);
    ScanCountsManifests(ss, NOTHING_FOUND);
  }

  /** A module is read exactly if one of its sections is a manifest. */
  lemma ReadOfSections(wasm: Bytes, ss: seq<Section>)
    requires IsModule(wasm, ss)
    ensures var ms := Manifests(ss);
            ReadManifest(wasm) == if |ms| == 0 then Err(NoManifest) else if |ms| == 1 then Ok(ms[0]) else Err(SeveralManifests)
  {
    ModuleScanned(wasm, ss);
  }

  lemma ManifestSectionIs(manifest: Bytes, ss: seq<Section>)
    requires |ss| == 1 && ss[0].Custom? && IsManifestName(ss[0].name) && ss[0].data == manifest
    ensures ManifestSection(manifest) == Sections(ss)
  {
    NameSpelled(ss[0].name);
    SingleSection(ss);
  }

  lemma SingleSection(ss: seq<Section>)
    requires |ss| == 1 && ss[0].Custom?
    ensures Sections(ss) == EncSection(BodyOf(ss[0]))
  {
    assert Sections(ss[1..]) == [];
    assert BodyOf(ss[0]) + [] == BodyOf(ss[0]);
  }

  lemma Appended(wasm: Bytes, manifest: Bytes)
    requires Scan(wasm).Ok?
    ensures Scan(wasm).value.count != 0 ==> AppendManifest(wasm, manifest) == Err(AlreadyPresent)
    ensures AppendManifest(wasm, manifest).Ok? ==> AppendManifest(wasm, manifest).value == wasm + ManifestSection(manifest)
  {
  }

  /** Appending puts a custom section of that name behind the others, and is refused if there is one already. */
  lemma AppendToSections(wasm: Bytes, ss: seq<Section>, manifest: Bytes, added: seq<Section>)
    requires IsModule(wasm, ss)
    requires |added| == 1 && added[0].Custom? && IsManifestName(added[0].name) && added[0].data == manifest
    ensures Manifests(ss) != [] ==> AppendManifest(wasm, manifest) == Err(AlreadyPresent)
    ensures AppendManifest(wasm, manifest).Ok? ==> AppendManifest(wasm, manifest).value == wasm + Sections(added)
  {
    ModuleScanned(wasm, ss);
    Appended(wasm, manifest);
    ManifestSectionIs(manifest, added);
  }
}

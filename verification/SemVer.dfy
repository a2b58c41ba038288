/** Semantic versions: what parses, and the order of items 9 to 11 of Semantic Versioning 2.0.0. */
module SemVers {
  import opened Prelude
  import opened Orderings
  import opened Strings

  // Numbers are kept as digit strings of any length; the parser's ban on leading zeros is what makes comparing
  // them by length and then by text right.

  // ---------- identifiers ----------

  predicate IsDigit(c: char) {
    '0' <= c <= '9'
  }

  predicate IsLetter(c: char) {
    'A' <= c <= 'Z' || 'a' <= c <= 'z'
  }

  lemma Characters(c: char)
    ensures IsDigit(c) <==> 0x30 <= c as int <= 0x39
    ensures IsLetter(c) <==> 0x41 <= c as int <= 0x5A || 0x61 <= c as int <= 0x7A
  {
  }

  predicate IsNumeric(s: string) {
    |s| > 0 && forall i :: 0 <= i < |s| ==> IsDigit(s[i])
  }

  predicate IsIdentifier(s: string) {
    |s| > 0 && forall i :: 0 <= i < |s| ==> IsDigit(s[i]) || IsLetter(s[i]) || s[i] == '-'
  }

  predicate HasLeadingZero(s: string) {
    |s| > 1 && s[0] == '0' && IsNumeric(s)
  }

  predicate AllIdentifiers(parts: seq<string>, strict: bool) {
    forall i :: 0 <= i < |parts| ==> IsAllowed(parts[i], strict)
  }

  function ParseIdentifiers(text: string, strict: bool): Option<seq<string>> {
    if |text| == 0 || !AllIdentifiers(Split(text), strict) then None else Some(Split(text))
  }

  predicate IsAllowed(s: string, strict: bool) {
    IsIdentifier(s) && !(strict && HasLeadingZero(s))
  }

  lemma BadPart(parts: seq<string>, part: string, whole: seq<string>, strict: bool)
    requires |parts| < |whole| && whole[|parts|] == part && !IsAllowed(part, strict)
    ensures !AllIdentifiers(whole, strict)
  {
  }

  lemma GoodPart(parts: seq<string>, part: string, strict: bool)
    requires AllIdentifiers(parts, strict) && IsAllowed(part, strict)
    ensures AllIdentifiers(parts + [part], strict)
  {
  }

  /** Cuts at each dot in turn, and stops at the first part that is not allowed. */
  method ParseIdentifierList(text: string, strict: bool) returns (r: Option<seq<string>>)
    ensures r == ParseIdentifiers(text, strict)
  {
    if |text| == 0 {
      return None;
    }
    ghost var whole := Split(text);
    var identifiers: seq<string> := [];
    var begin := 0;
    assert text[0..] == text;
    while true
      invariant begin <= |text| && identifiers + Split(text[begin..]) == whole && AllIdentifiers(identifiers, strict)
      decreases |text| - begin
    {
      var end := Find(text, '.', begin);
      var identifier := text[begin..end];
      NextPart(text, begin, end);
      if !IsAllowed(identifier, strict) {
        BadPart(identifiers, identifier, whole, strict);
        return None;
      }
      GoodPart(identifiers, identifier, strict);
      if end == |text| {
        return Some(identifiers + [identifier]);
      }
      begin := end + 1;
      Regroup(identifiers, [identifier], Split(text[begin..]));
      identifiers := identifiers + [identifier];
    }
  }

  // ---------- versions ----------

  datatype SemVer = SemVer(major: string, minor: string, patch: string, prerelease: seq<string>)

  predicate IsNumber(s: string) {
    IsNumeric(s) && !HasLeadingZero(s)
  }

  /** The versions there are. */
  predicate WellFormed(v: SemVer) {
    IsNumber(v.major) && IsNumber(v.minor) && IsNumber(v.patch) && AllIdentifiers(v.prerelease, true)
  }

  function ParseCore(text: string): Option<seq<string>> {
    var components := ParseIdentifiers(text, true);
    if components.None? || |components.value| != 3 then None
    else if !IsNumeric(components.value[0]) || !IsNumeric(components.value[1]) || !IsNumeric(components.value[2]) then None
    else components
  }

  /** The version before any build metadata. */
  function ParseVersion(text: string): Option<SemVer> {
    var dash := Find(text, '-', 0);
    var core := ParseCore(text[..dash]);
    if core.None? then None
    else if dash == |text| then Some(SemVer(core.value[0], core.value[1], core.value[2], []))
    else
      var prerelease := ParseIdentifiers(text[dash + 1..], true);
      if prerelease.None? then None else Some(SemVer(core.value[0], core.value[1], core.value[2], prerelease.value))
  }

  function Parse(text: string): Option<SemVer> {
    var plus := Find(text, '+', 0);
    if |text| == 0 || (plus < |text| && ParseIdentifiers(text[plus + 1..], false).None?) then None
    else ParseVersion(text[..plus])
  }

  function Format(v: SemVer): string {
    var core := Join([v.major, v.minor, v.patch]);
    if |v.prerelease| == 0 then core else core + "-" + Join(v.prerelease)
  }

  /** Whatever parses is well formed. */
  lemma ParsedIsWellFormed(text: string)
    requires Parse(text).Some?
    ensures WellFormed(Parse(text).value)
  {
  }

  lemma {:induction false} JoinHasOnly(parts: seq<string>, c: char)
    requires |parts| > 0 && c != '.' && forall k :: 0 <= k < |parts| ==> c !in parts[k]
    ensures c !in Join(parts)
    decreases |parts|
  {
    if |parts| > 1 {
      JoinHasOnly(parts[1..], c);
    }
  }

  lemma IdentifierHasNo(s: string, c: char)
    requires IsIdentifier(s) && (c == '.' || c == '+')
    ensures c !in s
  {
  }

  lemma NumberHasNo(s: string, c: char)
    requires IsNumeric(s) && (c == '.' || c == '+' || c == '-')
    ensures c !in s && IsIdentifier(s)
  {
    assert forall i :: 0 <= i < |s| ==> IsDigit(s[i]);
  }

  lemma {:induction false} JoinIsNotEmpty(parts: seq<string>)
    requires |parts| > 0 && forall k :: 0 <= k < |parts| ==> |parts[k]| > 0
    ensures |Join(parts)| > 0
  {
  }

  lemma CoreBack(v: SemVer)
    requires WellFormed(v)
    ensures var core := Join([v.major, v.minor, v.patch]);
            ParseCore(core) == Some([v.major, v.minor, v.patch]) && '-' !in core && '+' !in core && |core| > 0
  {
    var parts := [v.major, v.minor, v.patch];
    forall k, c | 0 <= k < 3 && (c == '.' || c == '+' || c == '-') ensures c !in parts[k] && IsIdentifier(parts[k]) {
      NumberHasNo(parts[k], c);
    }
    JoinThenSplit(parts);
    JoinHasOnly(parts, '-');
    JoinHasOnly(parts, '+');
    JoinIsNotEmpty(parts);
    assert IsIdentifier(parts[0]) && IsIdentifier(parts[1]) && IsIdentifier(parts[2]) by {
      NumberHasNo(v.major, '.');
      NumberHasNo(v.minor, '.');
      NumberHasNo(v.patch, '.');
    }
  }

  lemma PrereleaseBack(v: SemVer)
    requires WellFormed(v) && |v.prerelease| > 0
    ensures ParseIdentifiers(Join(v.prerelease), true) == Some(v.prerelease) && '+' !in Join(v.prerelease)
  {
    forall k, c | 0 <= k < |v.prerelease| && (c == '.' || c == '+') ensures c !in v.prerelease[k] {
      IdentifierHasNo(v.prerelease[k], c);
    }
    JoinThenSplit(v.prerelease);
    JoinHasOnly(v.prerelease, '+');
    JoinIsNotEmpty(v.prerelease);
  }

  lemma VersionBack(v: SemVer)
    requires WellFormed(v)
    ensures ParseVersion(Format(v)) == Some(v) && '+' !in Format(v) && |Format(v)| > 0
  {
    var core, text := Join([v.major, v.minor, v.patch]), Format(v);
    CoreBack(v);
    if |v.prerelease| == 0 {
      FindSkips(text, '-', 0, |text|);
      assert text[..|text|] == text;
    } else {
      PrereleaseBack(v);
      FindSkips(text, '-', 0, |core|);
      assert text[..|core|] == core && text[|core| + 1..] == Join(v.prerelease);
    }
  }

  /** Every well-formed version is what its own text parses to, with or without build metadata: items 9 and 10. */
  lemma ParseBack(v: SemVer, build: string)
    requires WellFormed(v)
    ensures Parse(Format(v)) == Some(v)
    ensures ParseIdentifiers(build, false).Some? ==> Parse(Format(v) + "+" + build) == Some(v)
  {
    var text := Format(v);
    VersionBack(v);
    FindSkips(text, '+', 0, |text|);
    assert text[..|text|] == text;
    var long := text + "+" + build;
    FindSkips(long, '+', 0, |text|);
    assert long[..|text|] == text && long[|text| + 1..] == build;
  }

  // ---------- exactly what parses ----------

  /** Letters, digits and hyphens with dots between them: none at either end and no two together. */
  predicate IsDotted(s: string) {
    && |s| > 0 && s[0] != '.' && s[|s| - 1] != '.'
    && (forall i :: 0 <= i < |s| ==> s[i] == '.' || s[i] == '-' || IsDigit(s[i]) || IsLetter(s[i]))
    && forall i :: 0 < i < |s| ==> s[i - 1] != '.' || s[i] != '.'
  }

  lemma {:induction false} DottedIdentifiers(text: string)
    ensures AllIdentifiers(Split(text), false) <==> IsDotted(text)
    decreases |text|
  {
    var dot := Find(text, '.', 0);
    if dot < |text| {
      DottedIdentifiers(text[dot + 1..]);
      DottedCut(text, dot);
      var parts := Split(text);
      assert parts[0] == text[..dot] && parts[1..] == Split(text[dot + 1..]);
      AllInTwo(parts);
    } else {
      assert Split(text) == [text];
      assert [text][1..] == [];
      AllInTwo([text]);
    }
  }

  lemma AllInTwo(parts: seq<string>)
    requires |parts| > 0
    ensures AllIdentifiers(parts, false) <==> IsAllowed(parts[0], false) && AllIdentifiers(parts[1..], false)
  {
    if IsAllowed(parts[0], false) && AllIdentifiers(parts[1..], false) {
      forall i | 0 <= i < |parts| ensures IsAllowed(parts[i], false) {
        assert i > 0 ==> parts[i] == parts[1..][i - 1];
      }
    }
    if AllIdentifiers(parts, false) {
      forall i | 0 <= i < |parts| - 1 ensures IsAllowed(parts[1..][i], false) {
        assert parts[1..][i] == parts[i + 1];
      }
    }
  }

  lemma DottedCut(text: string, dot: nat)
    requires dot < |text| && text[dot] == '.' && '.' !in text[..dot]
    ensures IsDotted(text) <==> IsIdentifier(text[..dot]) && IsDotted(text[dot + 1..])
  {
    var a, b := text[..dot], text[dot + 1..];
    if IsDotted(text) {
      assert dot > 0 && dot + 1 < |text|;
      assert b[0] == text[dot + 1] && b[|b| - 1] == text[|text| - 1];
      forall i | 0 < i < |b| ensures b[i - 1] != '.' || b[i] != '.' {
        assert text[dot + 1 + i - 1] != '.' || text[dot + 1 + i] != '.';
      }
    }
    if IsIdentifier(a) && IsDotted(b) {
      assert text == a + "." + b;
      forall i | 0 < i < |text| ensures text[i - 1] != '.' || text[i] != '.' {
        if i > dot + 1 {
          assert b[i - dot - 2] != '.' || b[i - dot - 1] != '.';
        }
      }
    }
  }

  lemma CoreIsItsText(text: string)
    requires ParseCore(text).Some?
    ensures var core := ParseCore(text).value; Join([core[0], core[1], core[2]]) == text
  {
    var core := ParseCore(text).value;
    SplitThenJoin(text);
    assert core == [core[0], core[1], core[2]];
  }

  lemma VersionIsItsText(text: string)
    requires ParseVersion(text).Some?
    ensures Format(ParseVersion(text).value) == text
  {
    var dash := Find(text, '-', 0);
    CoreIsItsText(text[..dash]);
    if dash < |text| {
      SplitThenJoin(text[dash + 1..]);
      assert text == text[..dash] + "-" + text[dash + 1..];
    } else {
      assert text[..dash] == text;
    }
  }

  /** A text parses to a version exactly if it is the text of that version, alone or with a plus and build metadata behind it; so
      bad metadata is refused, and only metadata is not kept. */
  lemma ParseExactly(text: string, v: SemVer)
    ensures Parse(text) == Some(v) <==>
              && WellFormed(v)
              && (text == Format(v) || exists build :: IsDotted(build) && text == Format(v) + "+" + build)
  {
    if Parse(text) == Some(v) {
      var plus := Find(text, '+', 0);
      ParsedIsWellFormed(text);
      VersionIsItsText(text[..plus]);
      if plus < |text| {
        DottedIdentifiers(text[plus + 1..]);
        assert text == Format(v) + "+" + text[plus + 1..];
      }
    }
    if WellFormed(v) {
      if text == Format(v) {
        ParseBack(v, "");
      }
      forall build | IsDotted(build) && text == Format(v) + "+" + build ensures Parse(text) == Some(v) {
        DottedIdentifiers(build);
        ParseBack(v, build);
      }
    }
  }

  // ---------- precedence ----------

  /** By length, then by text. */
  function CompareNumeric(a: string, b: string): Ordering {
    if |a| < |b| then Less else if |a| > |b| then Greater else CompareLex(a, b)
  }

  function CompareIdentifier(a: string, b: string): Ordering {
    if IsNumeric(a) != IsNumeric(b) then (if IsNumeric(a) then Less else Greater)
    else if IsNumeric(a) then CompareNumeric(a, b)
    else CompareLex(a, b)
  }

  /** The first difference decides; if there is none, more identifiers come later. */
  function CompareIdentifiers(p: seq<string>, q: seq<string>): Ordering {
    if |p| == 0 && |q| == 0 then Equal
    else if |p| == 0 then Less
    else if |q| == 0 then Greater
    else Then(CompareIdentifier(p[0], q[0]), CompareIdentifiers(p[1..], q[1..]))
  }

  /** A version without a pre-release comes after those with one. */
  function ComparePrerelease(p: seq<string>, q: seq<string>): Ordering {
    if |p| == 0 && |q| == 0 then Equal
    else if |p| == 0 then Greater
    else if |q| == 0 then Less
    else CompareIdentifiers(p, q)
  }

  function CompareVersions(v: SemVer, w: SemVer): Ordering {
    Then(CompareNumeric(v.major, w.major),
         Then(CompareNumeric(v.minor, w.minor),
              Then(CompareNumeric(v.patch, w.patch), ComparePrerelease(v.prerelease, w.prerelease))))
  }

  method Compare(v: SemVer, w: SemVer) returns (r: Ordering)
    ensures r == CompareVersions(v, w)
  {
    r := CompareNumeric(v.major, w.major);
    if !r.Equal? { return; }
    r := CompareNumeric(v.minor, w.minor);
    if !r.Equal? { return; }
    r := CompareNumeric(v.patch, w.patch);
    if !r.Equal? { return; }
    var p, q := v.prerelease, w.prerelease;
    if |p| == 0 && |q| == 0 { return Equal; }
    if |p| == 0 { return Greater; }
    if |q| == 0 { return Less; }
    var common := if |p| < |q| then |p| else |q|;
    assert p[0..] == p && q[0..] == q;
    for index := 0 to common
      invariant CompareIdentifiers(p, q) == CompareIdentifiers(p[index..], q[index..])
    {
      assert p[index..][1..] == p[index + 1..] && q[index..][1..] == q[index + 1..];
      var numeric, otherNumeric := IsNumeric(p[index]), IsNumeric(q[index]);
      if numeric != otherNumeric {
        return if numeric then Less else Greater;
      }
      r := if numeric then CompareNumeric(p[index], q[index]) else CompareLex(p[index], q[index]);
      if !r.Equal? {
        return;
      }
    }
    r := if |p| < |q| then Less else if |p| > |q| then Greater else Equal;
  }

  // ---------- numbers of any length ----------

  function Digit(c: char): int {
    c as int - '0' as int
  }

  function Value(s: string): int {
    if |s| == 0 then 0 else 10 * Value(s[..|s| - 1]) + Digit(s[|s| - 1])
  }

  function Pow10(n: nat): (p: nat)
    ensures p > 0
  {
    if n == 0 then 1 else 10 * Pow10(n - 1)
  }

  lemma {:induction false} ValueBound(s: string)
    requires IsNumeric(s)
    ensures 0 <= Value(s) < Pow10(|s|)
  {
    if |s| > 1 {
      ValueBound(s[..|s| - 1]);
    } else {
      assert s[..0] == "";
    }
  }

  /** The leading digit counts most. */
  lemma {:induction false} ValueFront(s: string)
    requires |s| > 0
    ensures Value(s) == Digit(s[0]) * Pow10(|s| - 1) + Value(s[1..])
  {
    if |s| == 1 {
      assert s[..0] == "" && s[1..] == "";
    } else {
      var init := s[..|s| - 1];
      ValueFront(init);
      var d, p := Digit(s[0]), Pow10(|s| - 2);
      assert 10 * (d * p) == d * (10 * p);
      assert init[1..] == s[1..][..|s| - 2];
      assert s[1..][|s| - 2] == s[|s| - 1];
    }
  }

  lemma {:induction false} SameLength(a: string, b: string)
    requires |a| == |b| && (|a| > 0 ==> IsNumeric(a) && IsNumeric(b))
    ensures CompareLex(a, b) == CompareInt(Value(a), Value(b))
    decreases |a|
  {
    if |a| > 0 {
      ValueFront(a);
      ValueFront(b);
      SameLength(a[1..], b[1..]);
      TailBound(a);
      TailBound(b);
      LeadingDecides(Digit(a[0]), Digit(b[0]), Pow10(|a| - 1), Value(a[1..]), Value(b[1..]));
    }
  }

  lemma TailBound(s: string)
    requires IsNumeric(s)
    ensures 0 <= Value(s[1..]) < Pow10(|s| - 1)
  {
    if |s| > 1 {
      ValueBound(s[1..]);
    }
  }

  lemma LeadingDecides(d: int, e: int, p: nat, x: int, y: int)
    requires 0 <= x < p && 0 <= y < p
    ensures d < e ==> d * p + x < e * p + y
    ensures d > e ==> d * p + x > e * p + y
  {
    if d < e { assert (d + 1) * p <= e * p; }
    if d > e { assert (e + 1) * p <= d * p; }
  }

  lemma {:induction false} Pow10Mono(m: nat, n: nat)
    requires m <= n
    ensures Pow10(m) <= Pow10(n)
  {
    if m < n {
      Pow10Mono(m, n - 1);
    }
  }

  lemma LongerIsLarger(a: string, b: string)
    requires IsNumber(a) && IsNumber(b) && |a| < |b|
    ensures Value(a) < Value(b)
  {
    ValueBound(a);
    ValueFront(b);
    TailBound(b);
    Pow10Mono(|a|, |b| - 1);
    assert IsDigit(b[0]) && b[0] != '0';
    AtLeastOnce(Digit(b[0]), Pow10(|b| - 1));
  }

  lemma AtLeastOnce(d: int, p: nat)
    requires d >= 1
    ensures d * p >= p
  {
    assert (d - 1) * p >= 0;
  }

  /** Comparing digit strings by length and text is comparing the numbers, whatever their size. */
  lemma CompareNumericIsCompareInt(a: string, b: string)
    requires IsNumber(a) && IsNumber(b)
    ensures CompareNumeric(a, b) == CompareInt(Value(a), Value(b))
  {
    if |a| < |b| {
      LongerIsLarger(a, b);
    } else if |a| > |b| {
      LongerIsLarger(b, a);
    } else {
      SameLength(a, b);
    }
  }

  /** The ban on leading zeros is needed. */
  lemma LeadingZerosWouldMislead()
    ensures Value("01") == Value("1") && CompareNumeric("01", "1") == Greater && Parse("01.0.0") == None
  {
    assert "01"[..1] == "0" && "0"[..0] == "" && "1"[..0] == "";
    var text := "01.0.0";
    FindSkips(text, '+', 0, 6);
    FindSkips(text, '-', 0, 6);
    assert text[..6] == text;
    FindSkips(text, '.', 0, 2);
    assert Split(text)[0] == "01" && HasLeadingZero("01");
  }

  // ---------- a total order whose equality is identity ----------

  lemma NumericFlips(a: string, b: string)
    ensures CompareNumeric(b, a) == Flip(CompareNumeric(a, b))
    ensures CompareNumeric(a, b) == Equal <==> a == b
  {
    LexFlips(a, b);
    LexEqualIsSame(a, b);
  }

  lemma IdentifierFlips(a: string, b: string)
    ensures CompareIdentifier(b, a) == Flip(CompareIdentifier(a, b))
    ensures CompareIdentifier(a, b) == Equal <==> a == b
  {
    NumericFlips(a, b);
    LexFlips(a, b);
    LexEqualIsSame(a, b);
  }

  lemma {:induction false} IdentifiersFlip(p: seq<string>, q: seq<string>)
    ensures CompareIdentifiers(q, p) == Flip(CompareIdentifiers(p, q))
    ensures CompareIdentifiers(p, q) == Equal <==> p == q
  {
    if |p| > 0 && |q| > 0 {
      IdentifierFlips(p[0], q[0]);
      IdentifiersFlip(p[1..], q[1..]);
      assert p == [p[0]] + p[1..] && q == [q[0]] + q[1..];
    }
  }

  /** Comparing the other way round gives the opposite answer, and only a version itself compares equal to it. */
  lemma CompareFlips(v: SemVer, w: SemVer)
    ensures CompareVersions(w, v) == Flip(CompareVersions(v, w))
    ensures CompareVersions(v, w) == Equal <==> v == w
  {
    NumericFlips(v.major, w.major);
    NumericFlips(v.minor, w.minor);
    NumericFlips(v.patch, w.patch);
    IdentifiersFlip(v.prerelease, w.prerelease);
  }

  lemma NumericTransitive(a: string, b: string, c: string)
    requires CompareNumeric(a, b) != Greater && CompareNumeric(b, c) != Greater
    ensures CompareNumeric(a, c) != Greater
    ensures CompareNumeric(a, c) == Equal ==> a == b == c
  {
    if |a| == |b| == |c| {
      LexTransitive(a, b, c);
      LexEqualIsSame(a, b);
      LexEqualIsSame(b, c);
    }
  }

  lemma IdentifierTransitive(a: string, b: string, c: string)
    requires CompareIdentifier(a, b) != Greater && CompareIdentifier(b, c) != Greater
    ensures CompareIdentifier(a, c) != Greater
    ensures CompareIdentifier(a, c) == Equal ==> a == b == c
  {
    if IsNumeric(a) && IsNumeric(b) && IsNumeric(c) {
      NumericTransitive(a, b, c);
    } else if !IsNumeric(a) && !IsNumeric(b) && !IsNumeric(c) {
      LexTransitive(a, b, c);
      LexEqualIsSame(a, b);
      LexEqualIsSame(b, c);
    }
  }

  lemma {:induction false} IdentifiersTransitive(p: seq<string>, q: seq<string>, r: seq<string>)
    requires CompareIdentifiers(p, q) != Greater && CompareIdentifiers(q, r) != Greater
    ensures CompareIdentifiers(p, r) != Greater
    ensures CompareIdentifiers(p, r) == Equal ==> p == q == r
    decreases |p|
  {
    if |p| > 0 && |q| > 0 && |r| > 0 {
      IdentifierTransitive(p[0], q[0], r[0]);
      IdentifierFlips(p[0], q[0]);
      IdentifierFlips(q[0], r[0]);
      if p[0] == q[0] == r[0] {
        IdentifiersTransitive(p[1..], q[1..], r[1..]);
      }
    }
    IdentifiersFlip(p, q);
    IdentifiersFlip(q, r);
    IdentifiersFlip(p, r);
  }

  lemma PrereleaseTransitive(p: seq<string>, q: seq<string>, r: seq<string>)
    requires ComparePrerelease(p, q) != Greater && ComparePrerelease(q, r) != Greater
    ensures ComparePrerelease(p, r) != Greater
    ensures ComparePrerelease(p, r) == Equal ==> p == q == r
  {
    if |p| > 0 && |q| > 0 && |r| > 0 {
      IdentifiersTransitive(p, q, r);
    }
  }

  lemma CompareTransitive(u: SemVer, v: SemVer, w: SemVer)
    requires CompareVersions(u, v) != Greater && CompareVersions(v, w) != Greater
    ensures CompareVersions(u, w) != Greater
  {
    NumericFlips(u.major, v.major);
    NumericFlips(v.major, w.major);
    NumericTransitive(u.major, v.major, w.major);
    if u.major == v.major == w.major {
      NumericFlips(u.minor, v.minor);
      NumericFlips(v.minor, w.minor);
      NumericTransitive(u.minor, v.minor, w.minor);
      if u.minor == v.minor == w.minor {
        NumericFlips(u.patch, v.patch);
        NumericFlips(v.patch, w.patch);
        NumericTransitive(u.patch, v.patch, w.patch);
        if u.patch == v.patch == w.patch {
          PrereleaseTransitive(u.prerelease, v.prerelease, w.prerelease);
        }
      }
    }
  }

  // ---------- item 11 on numbers ----------

  /** An identifier as item 11 sees it. */
  datatype Identifier = Number(value: int) | Word(text: string)

  function Meaning(s: string): Identifier {
    if IsNumeric(s) then Number(Value(s)) else Word(s)
  }

  /** Numbers numerically, words in ASCII order, numbers before words. */
  function PrecedenceOf(a: Identifier, b: Identifier): Ordering {
    match (a, b)
    case (Number(x), Number(y)) => CompareInt(x, y)
    case (Word(x), Word(y)) => CompareLex(x, y)
    case (Number(_), Word(_)) => Less
    case (Word(_), Number(_)) => Greater
  }

  /** `k` is where the lists first differ, or where one of them ends. */
  ghost predicate FirstDifference(p: seq<string>, q: seq<string>, k: nat) {
    && k <= |p| && k <= |q| && p[..k] == q[..k]
    && (k < |p| && k < |q| ==> p[k] != q[k])
  }

  /** Item 11 for two pre-release lists that agree up to `k`. */
  function ListPrecedence(p: seq<string>, q: seq<string>, k: nat): Ordering
    requires k <= |p| && k <= |q|
  {
    if k < |p| && k < |q| then PrecedenceOf(Meaning(p[k]), Meaning(q[k])) else CompareInt(|p|, |q|)
  }

  lemma {:induction false} IdentifiersMeetItem11(p: seq<string>, q: seq<string>, k: nat)
    requires AllIdentifiers(p, true) && AllIdentifiers(q, true) && FirstDifference(p, q, k)
    ensures CompareIdentifiers(p, q) == ListPrecedence(p, q, k)
    decreases k
  {
    if k == 0 {
      if |p| > 0 && |q| > 0 {
        IdentifierFlips(p[0], q[0]);
        if IsNumeric(p[0]) && IsNumeric(q[0]) {
          CompareNumericIsCompareInt(p[0], q[0]);
        }
      }
    } else {
      IdentifierFlips(p[0], q[0]);
      assert p[..k][0] == p[0] && q[..k][0] == q[0];
      assert p[1..][..k - 1] == p[..k][1..] && q[1..][..k - 1] == q[..k][1..];
      IdentifiersMeetItem11(p[1..], q[1..], k - 1);
    }
  }

  /** Precedence as item 11 words it: the first of major, minor and patch that differs, as numbers; then a
      release after its pre-releases; then the first identifier that differs; then the longer list. */
  lemma CompareMeetsItem11(v: SemVer, w: SemVer, k: nat)
    requires WellFormed(v) && WellFormed(w) && FirstDifference(v.prerelease, w.prerelease, k)
    ensures CompareVersions(v, w) ==
              if Value(v.major) != Value(w.major) then CompareInt(Value(v.major), Value(w.major))
              else if Value(v.minor) != Value(w.minor) then CompareInt(Value(v.minor), Value(w.minor))
              else if Value(v.patch) != Value(w.patch) then CompareInt(Value(v.patch), Value(w.patch))
              else if |v.prerelease| == 0 || |w.prerelease| == 0 then CompareInt(|w.prerelease|, |v.prerelease|)
              else ListPrecedence(v.prerelease, w.prerelease, k)
  {
    CompareNumericIsCompareInt(v.major, w.major);
    CompareNumericIsCompareInt(v.minor, w.minor);
    CompareNumericIsCompareInt(v.patch, w.patch);
    IdentifiersMeetItem11(v.prerelease, w.prerelease, k);
  }
}

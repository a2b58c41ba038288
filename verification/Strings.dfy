/** Searching and cutting strings. */
module Strings {

  /** The first place of `c` at or after `from`, or the end. */
  function Find(s: string, c: char, from: nat): (i: nat)
    requires from <= |s|
    ensures from <= i <= |s| && (i < |s| ==> s[i] == c)
    ensures forall j :: from <= j < i ==> s[j] != c
    decreases |s| - from
  {
    if from == |s| || s[from] == c then from else Find(s, c, from + 1)
  }

  /** The parts between dots, one more than there are dots. */
  function Split(s: string): (parts: seq<string>)
    ensures |parts| > 0
    decreases |s|
  {
    var dot := Find(s, '.', 0);
    if dot == |s| then [s] else [s[..dot]] + Split(s[dot + 1..])
  }

  function Join(parts: seq<string>): string
    requires |parts| > 0
  {
    if |parts| == 1 then parts[0] else parts[0] + "." + Join(parts[1..])
  }

  lemma FindSkips(s: string, c: char, from: nat, i: nat)
    requires from <= i <= |s| && (i < |s| ==> s[i] == c) && forall j :: from <= j < i ==> s[j] != c
    ensures Find(s, c, from) == i
    decreases i - from
  {
    if from < i {
      FindSkips(s, c, from + 1, i);
    }
  }

  lemma {:induction false} JoinThenSplit(parts: seq<string>)
    requires |parts| > 0 && forall k :: 0 <= k < |parts| ==> '.' !in parts[k]
    ensures Split(Join(parts)) == parts
    decreases |parts|
  {
    var s := Join(parts);
    if |parts| == 1 {
      FindSkips(s, '.', 0, |s|);
      assert parts == [parts[0]];
    } else {
      FindSkips(s, '.', 0, |parts[0]|);
      assert s[..|parts[0]|] == parts[0] && s[|parts[0]| + 1..] == Join(parts[1..]);
      JoinThenSplit(parts[1..]);
      assert parts == [parts[0]] + parts[1..];
    }
  }

  /** And joining undoes splitting. */
  lemma {:induction false} SplitThenJoin(s: string)
    ensures Join(Split(s)) == s
    decreases |s|
  {
    var dot := Find(s, '.', 0);
    if dot < |s| {
      SplitThenJoin(s[dot + 1..]);
      assert s == s[..dot] + "." + s[dot + 1..];
    }
  }

  /** What cutting a suffix at its first dot gives. */
  lemma NextPart(text: string, begin: nat, end: nat)
    requires begin <= |text| && end == Find(text, '.', begin)
    ensures end == |text| ==> Split(text[begin..]) == [text[begin..end]]
    ensures end < |text| ==> Split(text[begin..]) == [text[begin..end]] + Split(text[end + 1..])
  {
    FindSkips(text[begin..], '.', 0, end - begin);
    Slices(text, begin, end);
  }

  lemma Slices(text: string, begin: nat, end: nat)
    requires begin <= end <= |text|
    ensures text[begin..][..end - begin] == text[begin..end]
    ensures end == |text| ==> text[begin..] == text[begin..end]
    ensures end < |text| ==> text[begin..][end - begin + 1..] == text[end + 1..]
  {
  }
}

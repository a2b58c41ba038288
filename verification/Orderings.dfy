/** Three-way comparison, and the lexicographic order of strings. */
module Orderings {

  datatype Ordering = Less | Equal | Greater

  function Flip(o: Ordering): Ordering {
    match o
    case Less => Greater
    case Equal => Equal
    case Greater => Less
  }

  /** The second comparison decides when the first does not. */
  function Then(first: Ordering, second: Ordering): Ordering {
    if first.Equal? then second else first
  }

  function CompareInt(a: int, b: int): Ordering {
    if a < b then Less else if a > b then Greater else Equal
  }

  /** Character by character; a proper prefix comes first. */
  function CompareLex(a: string, b: string): Ordering {
    if |a| == 0 && |b| == 0 then Equal
    else if |a| == 0 then Less
    else if |b| == 0 then Greater
    else if a[0] < b[0] then Less
    else if a[0] > b[0] then Greater
    else CompareLex(a[1..], b[1..])
  }

  lemma {:induction false} LexFlips(a: string, b: string)
    ensures CompareLex(b, a) == Flip(CompareLex(a, b))
  {
    if |a| > 0 && |b| > 0 {
      LexFlips(a[1..], b[1..]);
    }
  }

  lemma {:induction false} LexEqualIsSame(a: string, b: string)
    ensures CompareLex(a, b) == Equal <==> a == b
  {
    if |a| > 0 && |b| > 0 {
      LexEqualIsSame(a[1..], b[1..]);
      assert a == [a[0]] + a[1..] && b == [b[0]] + b[1..];
    }
  }

  lemma {:induction false} LexTransitive(a: string, b: string, c: string)
    requires CompareLex(a, b) != Greater && CompareLex(b, c) != Greater
    ensures CompareLex(a, c) != Greater
    ensures CompareLex(a, c) == Equal ==> CompareLex(a, b) == Equal && CompareLex(b, c) == Equal
  {
    if |a| > 0 && |b| > 0 && |c| > 0 && a[0] == b[0] == c[0] {
      LexTransitive(a[1..], b[1..], c[1..]);
    }
  }

  /** In a dictionary: after k common characters the first ends, or has the smaller character. */
  predicate BeforeAt(a: string, b: string, k: nat) {
    k <= |a| && k < |b| && a[..k] == b[..k] && (k < |a| ==> a[k] < b[k])
  }

  predicate Before(a: string, b: string) {
    exists k :: 0 <= k < |b| && BeforeAt(a, b, k)
  }

  /** The comparison is the order of a dictionary. */
  lemma {:induction false} LexIsDictionary(a: string, b: string)
    ensures CompareLex(a, b) == Less <==> Before(a, b)
  {
    if |a| > 0 && |b| > 0 && a[0] == b[0] {
      LexIsDictionary(a[1..], b[1..]);
      if Before(a[1..], b[1..]) {
        var k :| 0 <= k < |b| - 1 && BeforeAt(a[1..], b[1..], k);
        LaterBefore(a, b, k + 1);
      }
      if Before(a, b) {
        var k :| 0 <= k < |b| && BeforeAt(a, b, k);
        assert k > 0;
        LaterBefore(a, b, k);
      }
    } else if |b| > 0 && (|a| == 0 || a[0] < b[0]) {
      assert BeforeAt(a, b, 0);
    } else {
      forall k | 0 <= k < |b| ensures !BeforeAt(a, b, k) {
        if 0 < k <= |a| {
          assert a[..k][0] == a[0] && b[..k][0] == b[0];
        }
      }
    }
  }

  lemma LaterBefore(a: string, b: string, k: nat)
    requires |a| > 0 && |b| > 0 && a[0] == b[0] && k > 0
    ensures BeforeAt(a, b, k) <==> BeforeAt(a[1..], b[1..], k - 1)
  {
    if k <= |a| && k <= |b| {
      assert a[..k] == [a[0]] + a[1..][..k - 1] && b[..k] == [b[0]] + b[1..][..k - 1];
      assert a[1..][..k - 1] == a[..k][1..] && b[1..][..k - 1] == b[..k][1..];
    }
  }
}

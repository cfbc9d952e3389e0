/**
 * The ascending order of processor names: lexicographic comparison of
 * character codes, a proper prefix coming first.
 */
module StringOrder {

  predicate Less(a: string, b: string)
  {
    if a == [] then b != []
    else if b == [] then false
    else a[0] < b[0] || (a[0] == b[0] && Less(a[1..], b[1..]))
  }

  lemma {:induction false} LessIrreflexive(a: string)
    ensures !Less(a, a)
  {
    if a != [] {
      LessIrreflexive(a[1..]);
    }
  }

  lemma {:induction false} LessTransitive(a: string, b: string, c: string)
    requires Less(a, b) && Less(b, c)
    ensures Less(a, c)
  {
    if a != [] && b != [] && c != [] && a[0] == b[0] == c[0] {
      LessTransitive(a[1..], b[1..], c[1..]);
    }
  }

  /** Any two distinct names are ordered one way or the other. */
  lemma {:induction false} LessTotal(a: string, b: string)
    requires a != b
    ensures Less(a, b) || Less(b, a)
  {
    if a != [] && b != [] && a[0] == b[0] {
      assert a == [a[0]] + a[1..] && b == [b[0]] + b[1..];
      LessTotal(a[1..], b[1..]);
    }
  }

  /** Strictly ascending, hence without repetitions. */
  predicate Sorted(s: seq<string>)
  {
    forall i, j :: 0 <= i < j < |s| ==> Less(s[i], s[j])
  }

  /** Insert a new name into an ascending list, keeping it ascending. */
  function Insert(s: seq<string>, x: string): (r: seq<string>)
    requires Sorted(s) && x !in s
    ensures Sorted(r) && |r| == |s| + 1
    ensures forall y :: y in r <==> y in s || y == x
  {
    if s == [] then [x]
    else if Less(x, s[0]) then
      LessBeforeAll(x, s);
      [x] + s
    else
      LessTotal(x, s[0]);
      assert Sorted(s[1..]);
      var r' := Insert(s[1..], x);
      assert forall y :: y in r' ==> Less(s[0], y);
      [s[0]] + r'
  }

  /** A name below the head of an ascending list is below all of it. */
  lemma LessBeforeAll(x: string, s: seq<string>)
    requires Sorted(s) && s != [] && Less(x, s[0])
    ensures forall k :: 0 <= k < |s| ==> Less(x, s[k])
  {
    forall k | 0 < k < |s|
      ensures Less(x, s[k])
    {
      LessTransitive(x, s[0], s[k]);
    }
  }
}

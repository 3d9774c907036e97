/**
 * City names and the order the vertex list is kept in: the sign of C's
 * `strcmp`, i.e. lexicographic order character by character, where a proper
 * prefix sorts before the longer name.
 */
module Names {

  /** The sign of `strcmp(a, b)`: -1, 0 or 1. */
  function Compare(a: string, b: string): (r: int)
    ensures -1 <= r <= 1
    ensures r == 0 <==> a == b
  {
    if |a| == 0 && |b| == 0 then 0
    else if |a| == 0 then -1
    else if |b| == 0 then 1
    else if a[0] < b[0] then -1
    else if a[0] > b[0] then 1
    else
      assert a == [a[0]] + a[1..] && b == [b[0]] + b[1..];
      Compare(a[1..], b[1..])
  }

  /** `strcmp(a, b) < 0` */
  predicate Less(a: string, b: string) {
    Compare(a, b) < 0
  }

  /** `strcmp(a, b) <= 0` */
  predicate LessEq(a: string, b: string) {
    Compare(a, b) <= 0
  }

  lemma {:induction false} CompareAntisymmetric(a: string, b: string)
    ensures Compare(a, b) == -Compare(b, a)
  {
    if |a| > 0 && |b| > 0 && a[0] == b[0] {
      CompareAntisymmetric(a[1..], b[1..]);
    }
  }

  lemma {:induction false} CompareTransitive(a: string, b: string, c: string)
    requires LessEq(a, b) && LessEq(b, c)
    ensures LessEq(a, c)
    ensures Less(a, b) || Less(b, c) ==> Less(a, c)
  {
    if |a| > 0 && |b| > 0 && |c| > 0 && a[0] == b[0] == c[0] {
      CompareTransitive(a[1..], b[1..], c[1..]);
    }
    if Compare(a, c) == 0 {
      CompareAntisymmetric(a, b);
    }
  }

  /** `strcmp` is total: of two names one is at most the other. */
  lemma NotLessIsGreaterEq(a: string, b: string)
    requires !Less(a, b)
    ensures LessEq(b, a)
  {
    CompareAntisymmetric(a, b);
  }
}

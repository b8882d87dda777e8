/** The order of Go strings. */
module Strings {
  predicate Before(a: string, b: string) {
    if b == "" then false
    else if a == "" then true
    else if a[0] != b[0] then a[0] < b[0]
    else Before(a[1..], b[1..])
  }

  lemma {:induction false} BeforeAsymmetric(a: string, b: string)
    ensures Before(a, b) ==> !Before(b, a)
    ensures !Before(a, b) && !Before(b, a) ==> a == b
  {
    if a != "" && b != "" && a[0] == b[0] {
      BeforeAsymmetric(a[1..], b[1..]);
      assert a == [a[0]] + a[1..] && b == [b[0]] + b[1..];
    }
  }

  lemma {:induction false} BeforeSplits(a: string, b: string, c: string)
    requires Before(a, c)
    ensures Before(a, b) || Before(b, c)
  {
    if a != "" && b != "" && a[0] == b[0] == c[0] {
      BeforeSplits(a[1..], b[1..], c[1..]);
    }
  }

  /** The first place where two strings differ decides, and a proper prefix comes first. */
  lemma {:induction false} BeforeExactly(a: string, b: string)
    ensures Before(a, b) <==> exists i :: DiffersAt(a, b, i)
  {
    if a != "" && b != "" && a[0] == b[0] {
      BeforeExactly(a[1..], b[1..]);
      if i :| DiffersAt(a[1..], b[1..], i) {
        assert a[1..][..i] == a[1..i + 1] && b[1..][..i] == b[1..i + 1];
        assert a[..i + 1] == [a[0]] + a[1..i + 1] && b[..i + 1] == [b[0]] + b[1..i + 1];
        assert DiffersAt(a, b, i + 1);
      }
      if i :| DiffersAt(a, b, i) {
        assert i > 0;
        assert a[1..][..i - 1] == a[..i][1..] && b[1..][..i - 1] == b[..i][1..];
        assert DiffersAt(a[1..], b[1..], i - 1);
      }
    } else if Before(a, b) {
      assert DiffersAt(a, b, 0);
    }
  }

  /** They agree up to i, where a ends or has the smaller character. */
  ghost predicate DiffersAt(a: string, b: string, i: int) {
    0 <= i <= |a| && i < |b| && a[..i] == b[..i] && (i == |a| || a[i] < b[i])
  }
}

/** The order of a sorted map's keys: strings by code point, which is also their order as UTF-8. */
module Ordering {

  predicate Le(a: string, b: string) {
    a == "" || (b != "" && (a[0] < b[0] || (a[0] == b[0] && Le(a[1..], b[1..]))))
  }

  predicate Less(a: string, b: string) {
    a != b && Le(a, b)
  }

  /** The strings agree up to here, and here the first has the smaller character. */
  predicate SmallerAt(a: string, b: string, i: nat) {
    i < |a| && i < |b| && a[..i] == b[..i] && a[i] < b[i]
  }

  /** One string is at or before another if it begins it, or has the smaller character where they part. */
  lemma {:induction false} LeExactly(a: string, b: string)
    ensures Le(a, b) <==> a <= b || exists i: nat :: SmallerAt(a, b, i)
  {
    if a == "" || b == "" {
    } else if a[0] != b[0] {
      assert a[0] < b[0] ==> SmallerAt(a, b, 0);
      assert forall i: nat :: SmallerAt(a, b, i) && i > 0 ==> a[..i][0] == b[..i][0];
    } else {
      LeExactly(a[1..], b[1..]);
      assert a == [a[0]] + a[1..] && b == [b[0]] + b[1..];
      forall i: nat | SmallerAt(a[1..], b[1..], i) ensures SmallerAt(a, b, i + 1) {
        assert a[..i + 1] == [a[0]] + a[1..][..i] && b[..i + 1] == [b[0]] + b[1..][..i];
      }
      forall i: nat | SmallerAt(a, b, i) ensures i > 0 && SmallerAt(a[1..], b[1..], i - 1) {
        assert a[1..][..i - 1] == a[..i][1..] && b[1..][..i - 1] == b[..i][1..];
      }
    }
  }

  lemma {:induction false} LeTotal(a: string, b: string)
    ensures Le(a, b) || Le(b, a)
  {
    if a == "" || b == "" {
    } else {
      LeTotal(a[1..], b[1..]);
    }
  }

  lemma {:induction false} LeAntisymmetric(a: string, b: string)
    requires Le(a, b) && Le(b, a)
    ensures a == b
  {
    if a == "" || b == "" {
    } else {
      LeAntisymmetric(a[1..], b[1..]);
      assert a == [a[0]] + a[1..] && b == [b[0]] + b[1..];
    }
  }

  lemma {:induction false} LeTransitive(a: string, b: string, c: string)
    requires Le(a, b) && Le(b, c)
    ensures Le(a, c)
  {
    if a != "" && a[0] == b[0] == c[0] {
      LeTransitive(a[1..], b[1..], c[1..]);
    }
  }

  predicate IsLeast(least: string, names: set<string>) {
    least in names && forall name :: name in names ==> Le(least, name)
  }

  lemma {:induction false} LeastExists(names: set<string>) returns (least: string)
    requires names != {}
    ensures IsLeast(least, names)
  {
    var some :| some in names;
    var others := names - {some};
    assert names == others + {some};
    if others == {} {
      LeTotal(some, some);
      least := some;
    } else {
      var best := LeastExists(others);
      LeTotal(best, some);
      if Le(best, some) {
        least := best;
      } else {
        LeTotal(some, some);
        forall name | name in others ensures Le(some, name) {
          LeTransitive(some, best, name);
        }
        least := some;
      }
    }
  }

  lemma LeastSome(names: set<string>)
    requires names != {}
    ensures exists least :: IsLeast(least, names)
  {
    var least := LeastExists(names);
  }

  ghost function Least(names: set<string>): (least: string)
    requires names != {}
    ensures IsLeast(least, names)
  {
    LeastSome(names);
    var least :| IsLeast(least, names);
    least
  }

  lemma LeastUnique(a: string, b: string, names: set<string>)
    requires IsLeast(a, names) && IsLeast(b, names)
    ensures a == b
  {
    LeAntisymmetric(a, b);
  }
}

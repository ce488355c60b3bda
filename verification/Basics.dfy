/** What several components share: optional values, ends of sequences, sizes, versions and locations. */
module Basics {

  datatype Option<+T> = None | Some(value: T)

  /** The first `n` elements, or all if there are fewer. */
  function First<T>(xs: seq<T>, n: nat): (r: seq<T>)
    ensures |r| == if |xs| <= n then |xs| else n
  {
    if |xs| <= n then xs else xs[..n]
  }

  /** The last `n` elements, or all if there are fewer. */
  function Last<T>(xs: seq<T>, n: nat): (r: seq<T>)
    ensures |r| == if |xs| <= n then |xs| else n
  {
    if |xs| <= n then xs else xs[|xs| - n..]
  }

  predicate IsSuffix<T(==)>(ys: seq<T>, xs: seq<T>) { |ys| <= |xs| && ys == xs[|xs| - |ys|..] }

  lemma SubsetSize<T>(x: set<T>, y: set<T>)
    requires x <= y
    ensures |x| <= |y|
  {
    assert y == x + (y - x);
  }

  lemma MulMonotone(a: nat, b: nat, n: nat)
    requires a <= b
    ensures a * n <= b * n
  {
    assert b * n == a * n + (b - a) * n;
  }

  datatype Version = Version(major: nat, minor: nat, patch: nat)
  {
    predicate CompatibleWith(other: Version) { major == other.major && minor >= other.minor }

    /** Ordered by major, then minor, then patch. */
    predicate AtLeast(other: Version) {
      || major > other.major
      || (major == other.major && (minor > other.minor || (minor == other.minor && patch >= other.patch)))
    }
  }

  datatype Location = Location(latitude: real, longitude: real)

  /** The great-circle distance in kilometres, left uninterpreted. */
  type Distance = (Location, Location) -> real
}

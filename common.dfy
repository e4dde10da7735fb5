/** Small shared vocabulary: optional values, the Python exceptions the core
    raises, order-preserving subsequences and Python's `range(0, n, step)`. */
module Common {

  datatype Option<+T> = None | Some(value: T) {
    function GetOr(default: T): T {
      match this
      case Some(v) => v
      case None => default
    }
  }

  /** The Python exceptions that escape the modelled code. */
  datatype Error = IndexError | ValueError

  datatype Result<+T> = Ok(value: T) | Err(error: Error)

  /** `a` is obtained from `b` by deleting elements: same elements, same order. */
  ghost predicate Subsequence<T>(a: seq<T>, b: seq<T>)
    decreases |b|
  {
    a == [] ||
    (b != [] &&
     ((a[|a| - 1] == b[|b| - 1] && Subsequence(a[..|a| - 1], b[..|b| - 1])) ||
      Subsequence(a, b[..|b| - 1])))
  }

  lemma {:induction false} SubsequenceExtend<T>(a: seq<T>, b: seq<T>, x: T)
    requires Subsequence(a, b)
    ensures Subsequence(a, b + [x]) && Subsequence(a + [x], b + [x])
  {
    assert (b + [x])[..|b|] == b;
    assert (a + [x])[..|a|] == a;
  }

  /** Number of occurrences of `x` in `s`. */
  function Count<T(==)>(s: seq<T>, x: T): nat
  {
    if s == [] then 0 else Count(s[..|s| - 1], x) + (if s[|s| - 1] == x then 1 else 0)
  }

  /** An element of `s` occurs in it. */
  lemma {:induction false} CountPositive<T>(s: seq<T>, k: nat)
    requires k < |s|
    ensures Count(s, s[k]) > 0
    decreases |s|
  {
    if k < |s| - 1 {
      CountPositive(s[..|s| - 1], k);
    }
  }


  /** An element that occurs has a position. */
  lemma {:induction false} CountWitness<T>(s: seq<T>, x: T) returns (j: nat)
    requires Count(s, x) > 0
    ensures j < |s| && s[j] == x
    decreases |s|
  {
    if s[|s| - 1] == x {
      j := |s| - 1;
    } else {
      j := CountWitness(s[..|s| - 1], x);
    }
  }

  /** The values of Python's `range(0, n, step)` for a non-zero step:
      `0, step, 2*step, ...` below `n` when step is positive, nothing when it is negative. */
  function RangeStarts(n: nat, step: int): (r: seq<nat>)
    requires step != 0
    ensures step < 0 ==> r == []
    ensures step > 0 ==> forall k :: 0 <= k < |r| ==> r[k] == k * step && r[k] < n
    ensures step > 0 ==> |r| * step >= n
  {
    if step < 0 then [] else StartsFrom(0, n, step)
  }

  function StartsFrom(i: nat, n: nat, step: nat): (r: seq<nat>)
    requires step > 0
    ensures forall k :: 0 <= k < |r| ==> r[k] == i + k * step && r[k] < n
    ensures i + |r| * step >= n
    decreases n - i
  {
    if i < n then [i] + StartsFrom(i + step, n, step) else []
  }
}

/**
 * `Array.prototype.find` and the truthiness test it applies to the value its
 * callback returns.
 */
module ArrayFind {
  import opened Wrappers

  /**
   * The values a `find` callback of this repository can return: a boolean
   * (an `===` comparison) or a function value (an arrow function that was
   * returned instead of being applied). Every callback is passed to
   * `FindFirst` through `Truthy`, as `find` tests the callback's value.
   */
  datatype CallbackValue<!T> = Boolean(b: bool) | Function(f: T -> bool)

  /** JavaScript truthiness: a boolean is itself, every function object is truthy. */
  predicate Truthy<T>(v: CallbackValue<T>)
  {
    match v
    case Boolean(b) => b
    case Function(_) => true
  }

  /**
   * `r` is what a left-to-right search of `s` for `p` must return: an element
   * satisfying `p` with no satisfying element before it, or `None` exactly
   * when no element satisfies `p`.
   */
  ghost predicate IsFirstMatch<T>(s: seq<T>, p: T -> bool, r: Option<T>)
  {
    && (r.None? <==> forall i :: 0 <= i < |s| ==> !p(s[i]))
    && (r.Some? ==> r.value in s && p(r.value))
    && (r.Some? ==>
          exists k :: 0 <= k < |s| && s[k] == r.value && forall j :: 0 <= j < k ==> !p(s[j]))
  }

  /** No two positions of `s` carry the same key. */
  predicate UniqueBy<T, K(==)>(s: seq<T>, key: T -> K)
  {
    forall i, j :: 0 <= i < |s| && 0 <= j < |s| && key(s[i]) == key(s[j]) ==> i == j
  }

  /**
   * `s.find(p)`: the first element, scanning from index 0 upwards, that
   * satisfies `p`, or `undefined` when none does.
   */
  function FindFirst<T>(s: seq<T>, p: T -> bool): (r: Option<T>)
    ensures IsFirstMatch(s, p, r)
    decreases |s|
  {
    if |s| == 0 then None
    else if p(s[0]) then Some(s[0])
    else
      var rest := FindFirst(s[1..], p);
      assert forall i :: 1 <= i < |s| ==> s[i] == s[1..][i - 1];
      rest
  }

  /** The elements of `s` that satisfy `p`, in their order in `s`. */
  function Filter<T>(s: seq<T>, p: T -> bool): (r: seq<T>)
    ensures |r| <= |s|
    ensures forall i :: 0 <= i < |r| ==> r[i] in s && p(r[i])
    ensures forall i :: 0 <= i < |s| && p(s[i]) ==> s[i] in r
    decreases |s|
  {
    if |s| == 0 then []
    else if p(s[0]) then [s[0]] + Filter(s[1..], p)
    else Filter(s[1..], p)
  }

  /** `find` agrees with the reference definition: the head of the filtered sequence. */
  lemma {:induction false} FindFirstIsHeadOfFilter<T>(s: seq<T>, p: T -> bool)
    ensures FindFirst(s, p) == if Filter(s, p) == [] then None else Some(Filter(s, p)[0])
    decreases |s|
  {
    if |s| > 0 && !p(s[0]) {
      FindFirstIsHeadOfFilter(s[1..], p);
    }
  }

  /**
   * An element that satisfies `p` and has no satisfying element before it is
   * exactly what `find` returns.
   */
  lemma {:induction false} FindFirstAt<T>(s: seq<T>, p: T -> bool, k: nat)
    requires k < |s| && p(s[k])
    requires forall j :: 0 <= j < k ==> !p(s[j])
    ensures FindFirst(s, p) == Some(s[k])
    decreases k
  {
    if k > 0 {
      assert forall j :: 0 <= j < k - 1 ==> s[1..][j] == s[j + 1];
      FindFirstAt(s[1..], p, k - 1);
    }
  }

  /** `find` depends on its callback only through the callback's answers on the elements of `s`. */
  lemma {:induction false} FindFirstCongruent<T>(s: seq<T>, p: T -> bool, q: T -> bool)
    requires forall i :: 0 <= i < |s| ==> p(s[i]) == q(s[i])
    ensures FindFirst(s, p) == FindFirst(s, q)
    decreases |s|
  {
    if |s| > 0 {
      assert forall i :: 0 <= i < |s| - 1 ==> s[1..][i] == s[i + 1];
      FindFirstCongruent(s[1..], p, q);
    }
  }

  /** A predicate that every element satisfies makes `find` return the first element. */
  lemma FindFirstAlwaysTrue<T>(s: seq<T>, p: T -> bool)
    requires forall x :: p(x)
    ensures FindFirst(s, p) == if |s| == 0 then None else Some(s[0])
  {
  }
}

/** Failure-carrying wrappers shared by every module of the model. */
module Common {

  /** Python's `None` / a present value. */
  datatype Option<+T> = None | Some(value: T) {
    /** The value, or `default` when absent (Python's `x or default` for non-falsy values). */
    function GetOr(default: T): T {
      match this
      case Some(v) => v
      case None => default
    }
  }

  /** A value or the error the source raises or reports instead. */
  datatype Result<+T, +E> = Ok(value: T) | Err(error: E)

  /** SQL `COALESCE(incoming, stored)`: the incoming value unless it is NULL. */
  function Coalesce<T>(incoming: Option<T>, stored: Option<T>): Option<T> {
    if incoming.Some? then incoming else stored
  }

  /** Number of elements of `s` satisfying `p`. */
  function CountWhere<T>(s: seq<T>, p: T -> bool): (n: nat)
    ensures n <= |s|
  {
    if s == [] then 0 else CountWhere(s[..|s| - 1], p) + (if p(s[|s| - 1]) then 1 else 0)
  }

  lemma CountWhereSnoc<T>(s: seq<T>, x: T, p: T -> bool)
    ensures CountWhere(s + [x], p) == CountWhere(s, p) + (if p(x) then 1 else 0)
  {
    assert (s + [x])[..|s|] == s;
  }

  lemma CountWhereStep<T>(s: seq<T>, i: nat, p: T -> bool)
    requires i < |s|
    ensures CountWhere(s[..i + 1], p) == CountWhere(s[..i], p) + (if p(s[i]) then 1 else 0)
  {
    var q := s[..i + 1];
    assert q[..i] == s[..i] && q[i] == s[i];
  }

  /** The elements of `s` satisfying `p`, in order (a Python list comprehension with a filter). */
  function Filter<T>(s: seq<T>, p: T -> bool): (r: seq<T>)
    ensures |r| == CountWhere(s, p)
    ensures forall x :: x in r ==> x in s && p(x)
  {
    if s == [] then [] else Filter(s[..|s| - 1], p) + (if p(s[|s| - 1]) then [s[|s| - 1]] else [])
  }

  lemma FilterSnoc<T>(s: seq<T>, x: T, p: T -> bool)
    ensures Filter(s + [x], p) == Filter(s, p) + (if p(x) then [x] else [])
  {
    assert (s + [x])[..|s|] == s;
  }

  /** The filter keeps every element that passes. */
  lemma {:induction false} FilterHas<T>(s: seq<T>, p: T -> bool, x: T)
    requires x in s && p(x)
    ensures x in Filter(s, p)
    decreases |s|
  {
    var n := |s| - 1;
    if s[n] != x {
      var j :| 0 <= j < |s| && s[j] == x;
      assert s[..n][j] == x;
      FilterHas(s[..n], p, x);
    }
  }

  /** True when the elements of `s` are pairwise distinct (`len(s) == len(set(s))`). */
  predicate Distinct<T(==)>(s: seq<T>) {
    forall i, j :: 0 <= i < j < |s| ==> s[i] != s[j]
  }

  /**
   * The values of a run of steps that may each fail, in order; the first
   * failure ends the run (a loop that appends and lets an exception escape).
   */
  function Collect<T, E>(cs: seq<Result<T, E>>): (r: Result<seq<T>, E>)
    ensures r.Ok? ==> |r.value| == |cs|
    decreases |cs|
  {
    if cs == [] then Ok([])
    else
      var n := |cs| - 1;
      match Collect(cs[..n])
      case Err(e) => Err(e)
      case Ok(kept) =>
        match cs[n]
        case Err(e) => Err(e)
        case Ok(x) => Ok(kept + [x])
  }

  lemma CollectSnoc<T, E>(cs: seq<Result<T, E>>, c: Result<T, E>)
    ensures Collect(cs + [c]) == match Collect(cs)
      case Err(e) => Err(e)
      case Ok(kept) => (match c case Err(e) => Err(e) case Ok(x) => Ok(kept + [x]))
  {
    assert (cs + [c])[..|cs|] == cs;
  }

  /** The run completes exactly when no step fails, and then holds each step's value. */
  lemma {:induction false} CollectAll<T, E>(cs: seq<Result<T, E>>)
    ensures Collect(cs).Ok? <==> forall i :: 0 <= i < |cs| ==> cs[i].Ok?
    ensures Collect(cs).Ok? ==> forall i :: 0 <= i < |cs| ==> Collect(cs).value[i] == cs[i].value
    decreases |cs|
  {
    if cs != [] {
      var n := |cs| - 1;
      CollectAll(cs[..n]);
      assert forall i :: 0 <= i < n ==> cs[..n][i] == cs[i];
    }
  }

  /** When the run fails, it reports the first step that failed. */
  lemma {:induction false} CollectFirstError<T, E>(cs: seq<Result<T, E>>)
    requires Collect(cs).Err?
    ensures exists i :: (0 <= i < |cs| && cs[i].Err? && Collect(cs).error == cs[i].error &&
      forall j :: 0 <= j < i ==> cs[j].Ok?)
    decreases |cs|
  {
    var n := |cs| - 1;
    if Collect(cs[..n]).Err? {
      CollectFirstError(cs[..n]);
      var i :| 0 <= i < n && cs[..n][i].Err? && Collect(cs[..n]).error == cs[..n][i].error &&
        forall j :: 0 <= j < i ==> cs[..n][j].Ok?;
      assert cs[i] == cs[..n][i];
      assert forall j :: 0 <= j < i ==> cs[j] == cs[..n][j];
    } else {
      CollectAll(cs[..n]);
      assert forall j :: 0 <= j < n ==> cs[j] == cs[..n][j];
    }
  }

  /** Once a step fails, the later steps never run. */
  lemma {:induction false} CollectStops<T, E>(cs: seq<Result<T, E>>, n: nat)
    requires n <= |cs| && Collect(cs[..n]).Err?
    ensures Collect(cs) == Collect(cs[..n])
    decreases |cs| - n
  {
    if n < |cs| {
      var m := |cs| - 1;
      assert cs[..m][..n] == cs[..n];
      CollectStops(cs[..m], n);
    } else {
      assert cs[..n] == cs;
    }
  }

  /** A non-empty sequence is its front followed by its last element. */
  lemma LastSplit<T>(s: seq<T>)
    requires s != []
    ensures s == s[..|s| - 1] + [s[|s| - 1]]
  {
  }

  /** Appending to a non-empty sequence keeps its head and appends to its tail. */
  lemma TailAppend<T>(a: seq<T>, b: seq<T>)
    requires a != []
    ensures (a + b)[0] == a[0] && (a + b)[1..] == a[1..] + b
  {
  }

  /** Two sequences of one length that agree at every index are equal. */
  lemma SameAt<T>(a: seq<T>, b: seq<T>)
    requires |a| == |b| && forall i :: 0 <= i < |a| ==> a[i] == b[i]
    ensures a == b
  {
  }

  /** Cutting the suffix from `i` at `k` cuts the whole at `i + k`. */
  lemma SuffixSlices<T>(s: seq<T>, i: nat, k: nat)
    requires i + k <= |s|
    ensures s[i..][..k] == s[i..i + k] && s[i..][k..] == s[i + k..]
  {
  }

  /** A prefix of `b` is a prefix of `b` followed by anything. */
  lemma PrefixAppend<T>(a: seq<T>, b: seq<T>, c: seq<T>)
    requires a <= b
    ensures a <= b + c
  {
    assert (b + c)[..|a|] == b[..|a|];
  }

  lemma PrefixTrans<T>(a: seq<T>, b: seq<T>, c: seq<T>)
    requires a <= b && b <= c
    ensures a <= c
  {
    assert c[..|a|] == c[..|b|][..|a|];
  }

  lemma FilterStep<T>(s: seq<T>, i: nat, p: T -> bool)
    requires i < |s|
    ensures Filter(s[..i + 1], p) == Filter(s[..i], p) + (if p(s[i]) then [s[i]] else [])
  {
    var q := s[..i + 1];
    assert q[..i] == s[..i] && q[i] == s[i];
  }

  /** Taking every element gives the whole sequence. */
  lemma TakeAll<T>(s: seq<T>)
    ensures s[..|s|] == s
  {
  }

  /** The first `i + 1` elements are the first `i` and then element `i`. */
  lemma TakeSnoc<T>(s: seq<T>, i: nat)
    requires i < |s|
    ensures s[..i + 1] == s[..i] + [s[i]]
  {
  }

  /**
   * The scrapers' `if limit and len(found) >= limit: break`: a limit of 0 or
   * no limit never stops the loop.
   */
  predicate LimitReached(limit: Option<int>, n: nat) {
    limit.Some? && limit.value != 0 && n >= limit.value
  }

  /** The smallest `j` in `[lo, hi)` with `m(j)`: the order in which a lazy regex quantifier tries lengths. */
  function FirstWhere(m: nat -> bool, lo: nat, hi: nat): (r: Option<nat>)
    ensures r.Some? ==> lo <= r.value < hi && m(r.value) && forall j :: lo <= j < r.value ==> !m(j)
    ensures r.None? ==> forall j :: lo <= j < hi ==> !m(j)
    decreases hi - lo
  {
    if lo >= hi then None else if m(lo) then Some(lo) else FirstWhere(m, lo + 1, hi)
  }

  /** The largest `j` in `[lo, hi)` with `m(j)`: the order in which a greedy regex quantifier gives back. */
  function LastWhere(m: nat -> bool, lo: nat, hi: nat): (r: Option<nat>)
    ensures r.Some? ==> lo <= r.value < hi && m(r.value) && forall j :: r.value < j < hi ==> !m(j)
    ensures r.None? ==> forall j :: lo <= j < hi ==> !m(j)
    decreases hi - lo
  {
    if lo >= hi then None else if m(hi - 1) then Some(hi - 1) else LastWhere(m, lo, hi - 1)
  }

  /** The search finds `k` when `k` qualifies and nothing before it does. */
  lemma FirstWhereIs(m: nat -> bool, lo: nat, hi: nat, k: nat)
    requires lo <= k < hi && m(k) && forall j :: lo <= j < k ==> !m(j)
    ensures FirstWhere(m, lo, hi) == Some(k)
  {
    var r := FirstWhere(m, lo, hi);
    assert r.Some? && r.value <= k;
  }
}

/** Values shared by every part of the model: optional values (the source's
    `T | null` and optional properties), the outcome of a request to the
    backend, and the two list filters the client uses (`Array.prototype.filter`
    with a predicate, and with a key comparison). */
module Common {

  /** `null` / `undefined` versus a present value. */
  datatype Option<T> = None | Some(value: T)

  /** Why a call did not produce its value. `Transport` is anything axios
      rejects with (network error, non-2xx status); the others are the errors
      the client itself throws after inspecting a response. */
  datatype Failure =
    | Transport
    | Backend(message: string)
    | UnexpectedFormat
    | PeriodFailed
    | MissingData

  /** The settled value of an awaited call: resolved with a value or rejected. */
  datatype Outcome<T> = Ok(value: T) | Err(failure: Failure)

  /** `xs.filter(keep)`: the elements satisfying `keep`, in their original order. */
  function Filter<T>(xs: seq<T>, keep: T -> bool): (r: seq<T>)
    ensures |r| <= |xs|
    ensures forall i :: 0 <= i < |r| ==> keep(r[i]) && r[i] in xs
    ensures forall x :: x in xs && keep(x) ==> x in r
    decreases |xs|
  {
    if xs == [] then []
    else if keep(xs[0]) then [xs[0]] + Filter(xs[1..], keep)
    else Filter(xs[1..], keep)
  }

  /** Filtering a concatenation filters each part: the kept elements stay in
      their original relative order. */
  lemma {:induction false} FilterConcat<T>(xs: seq<T>, ys: seq<T>, keep: T -> bool)
    ensures Filter(xs + ys, keep) == Filter(xs, keep) + Filter(ys, keep)
    decreases |xs|
  {
    if xs == [] {
      assert xs + ys == ys;
    } else {
      assert (xs + ys)[1..] == xs[1..] + ys;
      FilterConcat(xs[1..], ys, keep);
    }
  }

  /** Filtering twice with the same predicate is filtering once. */
  lemma {:induction false} FilterIdempotent<T>(xs: seq<T>, keep: T -> bool)
    ensures Filter(Filter(xs, keep), keep) == Filter(xs, keep)
    decreases |xs|
  {
    if xs != [] {
      FilterIdempotent(xs[1..], keep);
      if keep(xs[0]) {
        var r := Filter(xs, keep);
        assert r == [xs[0]] + Filter(xs[1..], keep);
        assert r[1..] == Filter(xs[1..], keep);
      }
    }
  }

  /** The filter keeps everything exactly when every element satisfies the predicate. */
  lemma {:induction false} FilterKeepsAll<T>(xs: seq<T>, keep: T -> bool)
    ensures Filter(xs, keep) == xs <==> forall x :: x in xs ==> keep(x)
    decreases |xs|
  {
    if xs != [] {
      FilterKeepsAll(xs[1..], keep);
      if !keep(xs[0]) {
        assert |Filter(xs, keep)| < |xs| by {
          assert Filter(xs, keep) == Filter(xs[1..], keep);
        }
      } else {
        assert forall x :: x in xs ==> x == xs[0] || x in xs[1..];
      }
    }
  }

  /** `xs.filter(x => key(x) !== k)`: every element whose key differs from `k`,
      in order. */
  function RemoveKey<T, K(==)>(xs: seq<T>, key: T -> K, k: K): (r: seq<T>)
    ensures |r| <= |xs|
    ensures forall i :: 0 <= i < |r| ==> key(r[i]) != k && r[i] in xs
    ensures forall x :: x in xs && key(x) != k ==> x in r
    decreases |xs|
  {
    if xs == [] then []
    else if key(xs[0]) != k then [xs[0]] + RemoveKey(xs[1..], key, k)
    else RemoveKey(xs[1..], key, k)
  }

  /** Removing by key distributes over concatenation, so the survivors keep
      their original order. */
  lemma {:induction false} RemoveKeyConcat<T, K>(xs: seq<T>, ys: seq<T>, key: T -> K, k: K)
    ensures RemoveKey(xs + ys, key, k) == RemoveKey(xs, key, k) + RemoveKey(ys, key, k)
    decreases |xs|
  {
    if xs == [] {
      assert xs + ys == ys;
    } else {
      assert (xs + ys)[1..] == xs[1..] + ys;
      RemoveKeyConcat(xs[1..], ys, key, k);
    }
  }

  /** Removing a key that no element carries changes nothing. */
  lemma {:induction false} RemoveAbsentKey<T, K>(xs: seq<T>, key: T -> K, k: K)
    requires forall i :: 0 <= i < |xs| ==> key(xs[i]) != k
    ensures RemoveKey(xs, key, k) == xs
    decreases |xs|
  {
    if xs != [] {
      RemoveAbsentKey(xs[1..], key, k);
    }
  }

  /** Removing the same key twice is removing it once. */
  lemma RemoveKeyIdempotent<T, K>(xs: seq<T>, key: T -> K, k: K)
    ensures RemoveKey(RemoveKey(xs, key, k), key, k) == RemoveKey(xs, key, k)
  {
    RemoveAbsentKey(RemoveKey(xs, key, k), key, k);
  }
}

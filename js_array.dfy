/**
 * The two array combinators the resolution step relies on: `filter` that drops
 * `null` entries, and `Promise.all`, whose result keeps each value at the index
 * of the promise that produced it and which rejects as soon as one promise rejects.
 */
module JsArray {
  import opened Wrappers

  /** The one-element list of a present value, or the empty list for `null`. */
  function Present<T>(x: Option<T>): seq<T> {
    match x
    case None => []
    case Some(v) => [v]
  }

  /** `xs.filter(x => x !== null)` */
  function FilterNonNull<T>(xs: seq<Option<T>>): (r: seq<T>)
    ensures |r| <= |xs|
  {
    if xs == [] then []
    else FilterNonNull(xs[..|xs| - 1]) + Present(xs[|xs| - 1])
  }

  /** The indices of the non-null entries of `xs`, in increasing order. */
  function NonNullIndices<T>(xs: seq<Option<T>>): (idx: seq<nat>)
    ensures forall j :: 0 <= j < |idx| ==> idx[j] < |xs| && xs[idx[j]].Some?
    ensures forall j, k :: 0 <= j < k < |idx| ==> idx[j] < idx[k]
    ensures forall i :: 0 <= i < |xs| && xs[i].Some? ==> i in idx
  {
    if xs == [] then []
    else NonNullIndices(xs[..|xs| - 1]) + (if xs[|xs| - 1].Some? then [|xs| - 1] else [])
  }

  /**
   * The filter keeps exactly the non-null entries, in their original order: its
   * j-th value is the value at the j-th non-null index.
   */
  lemma {:induction false} FilterNonNullAt<T>(xs: seq<Option<T>>)
    ensures |FilterNonNull(xs)| == |NonNullIndices(xs)|
    ensures forall j :: 0 <= j < |NonNullIndices(xs)| ==>
              FilterNonNull(xs)[j] == xs[NonNullIndices(xs)[j]].value
  {
    if xs != [] {
      var init := xs[..|xs| - 1];
      FilterNonNullAt(init);
      var f, idx := FilterNonNull(xs), NonNullIndices(xs);
      var f0, idx0 := FilterNonNull(init), NonNullIndices(init);
      assert f == f0 + Present(xs[|xs| - 1]);
      assert idx == idx0 + (if xs[|xs| - 1].Some? then [|xs| - 1] else []);
      forall j | 0 <= j < |idx|
        ensures f[j] == xs[idx[j]].value
      {
        if j < |idx0| {
          assert idx[j] == idx0[j] && f[j] == f0[j];
          assert init[idx0[j]] == xs[idx0[j]];
        }
      }
    }
  }

  /** Filtering distributes over concatenation, so relative order is kept. */
  lemma {:induction false} FilterNonNullAppend<T>(a: seq<Option<T>>, b: seq<Option<T>>)
    ensures FilterNonNull(a + b) == FilterNonNull(a) + FilterNonNull(b)
  {
    if b == [] {
      assert a + b == a;
    } else {
      var init := b[..|b| - 1];
      assert (a + b)[..|a + b| - 1] == a + init;
      FilterNonNullAppend(a, init);
    }
  }

  /** With no `null` entry, the filter keeps every value at its index. */
  lemma {:induction false} FilterNonNullAllPresent<T>(xs: seq<Option<T>>)
    requires forall i :: 0 <= i < |xs| ==> xs[i].Some?
    ensures |FilterNonNull(xs)| == |xs|
    ensures forall i :: 0 <= i < |xs| ==> FilterNonNull(xs)[i] == xs[i].value
  {
    if xs != [] {
      var init := xs[..|xs| - 1];
      FilterNonNullAllPresent(init);
      assert forall i :: 0 <= i < |init| ==> init[i] == xs[i];
    }
  }

  /** The filter of a list is the filter of what precedes index `k`, entry `k`, then the filter of the rest. */
  lemma {:induction false} FilterNonNullSplit<T>(xs: seq<Option<T>>, k: nat)
    requires k < |xs|
    ensures FilterNonNull(xs) == FilterNonNull(xs[..k]) + Present(xs[k]) + FilterNonNull(xs[k + 1..])
  {
    var head := xs[..k + 1];
    assert xs == head + xs[k + 1..];
    FilterNonNullAppend(head, xs[k + 1..]);
    assert head[..|head| - 1] == xs[..k];
  }

  /** With exactly one `null` entry, at `k`, the filter is one shorter and skips only index `k`. */
  lemma {:induction false} FilterNonNullOneMissing<T>(xs: seq<Option<T>>, k: nat)
    requires k < |xs| && xs[k].None?
    requires forall i :: 0 <= i < |xs| && i != k ==> xs[i].Some?
    ensures |FilterNonNull(xs)| == |xs| - 1
    ensures forall i :: 0 <= i < k ==> FilterNonNull(xs)[i] == xs[i].value
    ensures forall i :: k < i < |xs| ==> FilterNonNull(xs)[i - 1] == xs[i].value
  {
    var before, after := xs[..k], xs[k + 1..];
    FilterNonNullSplit(xs, k);
    FilterNonNullAllPresent(before);
    FilterNonNullAllPresent(after);
    var f, f0, f1 := FilterNonNull(xs), FilterNonNull(before), FilterNonNull(after);
    assert f == f0 + f1 && |f0| == k;
    forall i | 0 <= i < k
      ensures f[i] == xs[i].value
    {
      assert f[i] == f0[i] && before[i] == xs[i];
    }
    forall i | k < i < |xs|
      ensures f[i - 1] == xs[i].value
    {
      var j := i - 1 - k;
      assert (f0 + f1)[|f0| + j] == f1[j];
      assert after[j] == xs[i];
    }
  }

  /**
   * `Promise.all(rs)`: fulfilled when every promise is, with the values in the
   * order of `rs`; rejected otherwise.
   */
  function All<T, E>(rs: seq<Result<T, E>>): (r: Result<seq<T>, E>)
    ensures r.Success? <==> forall i :: 0 <= i < |rs| ==> rs[i].Success?
    ensures r.Success? ==> |r.value| == |rs| && forall i :: 0 <= i < |rs| ==> r.value[i] == rs[i].value
  {
    if rs == [] then Success([])
    else
      match All(rs[..|rs| - 1])
      case Failure(e) => Failure(e)
      case Success(init) =>
        match rs[|rs| - 1]
        case Failure(e) => Failure(e)
        case Success(v) => Success(init + [v])
  }
}

/** The two loop shapes the sampling schemes share, over the variables of a
    dictionary in order: appending a result per variable to a list, and
    storing a result per variable under its name. Both stop at the first
    exception. The loop body is a parameter, so what is proved here holds
    whatever the body computes. */
module Loops {
  import opened Values

  /** The items of xs in order, evaluated by f with their positions, stopping
      at the first exception: a loop that appends f's results to a list. */
  function Collect<A, B>(xs: seq<A>, f: (nat, A) -> Result<B>, k: nat): (r: Result<seq<B>>)
    requires k <= |xs|
    ensures r.Ok? <==> forall j :: 0 <= j < k ==> f(j, xs[j]).Ok?
    ensures r.Ok? ==> |r.value| == k && forall j :: 0 <= j < k ==> f(j, xs[j]) == Ok(r.value[j])
    ensures r.Err? ==> exists j :: 0 <= j < k && f(j, xs[j]) == Err(r.error) && forall i :: 0 <= i < j ==> f(i, xs[i]).Ok?
  {
    if k == 0 then Ok([])
    else
      var ys :- Collect(xs, f, k - 1);
      var y :- f(k - 1, xs[k - 1]);
      Ok(ys + [y])
  }

  /** Once an exception is raised, the rest of the loop does not run. */
  lemma {:induction false} CollectErrPersists<A, B>(xs: seq<A>, f: (nat, A) -> Result<B>, k: nat, m: nat)
    requires k <= m <= |xs| && Collect(xs, f, k).Err?
    ensures Collect(xs, f, m) == Collect(xs, f, k)
    decreases m
  {
    if m > k {
      CollectErrPersists(xs, f, k, m - 1);
    }
  }

  /** One more pass of the loop appends f's result for the next item. */
  lemma CollectStep<A, B>(xs: seq<A>, f: (nat, A) -> Result<B>, k: nat, ys: seq<B>)
    requires k < |xs| && Collect(xs, f, k) == Ok(ys) && f(k, xs[k]).Ok?
    ensures Collect(xs, f, k + 1) == Ok(ys + [f(k, xs[k]).value])
  {
  }

  /** An exception in the next pass is the loop's exception. */
  lemma CollectFails<A, B>(xs: seq<A>, f: (nat, A) -> Result<B>, k: nat, ys: seq<B>)
    requires k < |xs| && Collect(xs, f, k) == Ok(ys) && f(k, xs[k]).Err?
    ensures Collect(xs, f, |xs|) == Err(f(k, xs[k]).error)
  {
    CollectErrPersists(xs, f, k + 1, |xs|);
  }

  /** `ys = []; for x in xs: ys.append(f(x))`, with f told the position too. */
  method CollectEach<A, B>(xs: seq<A>, f: (nat, A) -> Result<B>) returns (r: Result<seq<B>>)
    ensures r == Collect(xs, f, |xs|)
  {
    var ys: seq<B> := [];
    var i := 0;
    while i < |xs|
      invariant i <= |xs|
      invariant Collect(xs, f, i) == Ok(ys)
    {
      var y := f(i, xs[i]);
      if y.Err? {
        CollectFails(xs, f, i, ys);
        return Err(y.error);
      }
      CollectStep(xs, f, i, ys);
      ys := ys + [y.value];
      i := i + 1;
    }
    r := Ok(ys);
  }

  /** The dictionary after the first k entries of xs: each entry's result
      under f, when there is one, stored under the entry's name with
      `d[name] = result`; the first exception ends the loop. */
  function Store<A, B>(xs: Dict<A>, f: (nat, A) -> Result<Option<B>>, k: nat): (r: Result<Dict<B>>)
    requires k <= |xs|
    ensures r.Ok? <==> forall j :: 0 <= j < k ==> f(j, xs[j].1).Ok?
  {
    if k == 0 then Ok([])
    else
      var d :- Store(xs, f, k - 1);
      var y :- f(k - 1, xs[k - 1].1);
      Ok(if y.Some? then Put(d, xs[k - 1].0, y.value) else d)
  }

  lemma {:induction false} StoreErrPersists<A, B>(xs: Dict<A>, f: (nat, A) -> Result<Option<B>>, k: nat, m: nat)
    requires k <= m <= |xs| && Store(xs, f, k).Err?
    ensures Store(xs, f, m) == Store(xs, f, k)
    decreases m
  {
    if m > k {
      StoreErrPersists(xs, f, k, m - 1);
    }
  }

  /** One more pass of the loop stores the next entry's result, if any. */
  lemma StoreStep<A, B>(xs: Dict<A>, f: (nat, A) -> Result<Option<B>>, k: nat, d: Dict<B>)
    requires k < |xs| && Store(xs, f, k) == Ok(d) && f(k, xs[k].1).Ok?
    ensures var y := f(k, xs[k].1).value;
      Store(xs, f, k + 1) == Ok(if y.Some? then Put(d, xs[k].0, y.value) else d)
  {
  }

  /** An exception for the next entry is the loop's exception. */
  lemma StoreFails<A, B>(xs: Dict<A>, f: (nat, A) -> Result<Option<B>>, k: nat, d: Dict<B>)
    requires k < |xs| && Store(xs, f, k) == Ok(d) && f(k, xs[k].1).Err?
    ensures Store(xs, f, |xs|) == Err(f(k, xs[k].1).error)
  {
    StoreErrPersists(xs, f, k + 1, |xs|);
  }

  /** `d = {}; for name, x in xs: d[name] = f(x)`, skipping the entries f
      has no result for. */
  method StoreEach<A, B>(xs: Dict<A>, f: (nat, A) -> Result<Option<B>>) returns (r: Result<Dict<B>>)
    ensures r == Store(xs, f, |xs|)
  {
    var d: Dict<B> := [];
    var i := 0;
    while i < |xs|
      invariant i <= |xs|
      invariant Store(xs, f, i) == Ok(d)
    {
      var (name, x) := xs[i];
      var y := f(i, x);
      if y.Err? {
        StoreFails(xs, f, i, d);
        return Err(y.error);
      }
      StoreStep(xs, f, i, d);
      if y.value.Some? {
        d := Put(d, name, y.value.value);
      }
      i := i + 1;
    }
    r := Ok(d);
  }

  /** No two entries share a name, as in any Python dict. */
  predicate DistinctKeys<T>(d: Dict<T>)
  {
    forall i, j :: 0 <= i < j < |d| ==> d[i].0 != d[j].0
  }

  /** A name none of the first k entries has is not stored. */
  lemma {:induction false} StoreAbsent<A, B>(xs: Dict<A>, f: (nat, A) -> Result<Option<B>>, k: nat, key: string)
    requires k <= |xs| && Store(xs, f, k).Ok?
    requires forall j :: 0 <= j < k ==> xs[j].0 != key
    ensures Get(Store(xs, f, k).value, key).None?
  {
    if k > 0 {
      StoreAbsent(xs, f, k - 1, key);
    }
  }

  /** With distinct names, each entry's name holds its own result, and
      nothing when it had none. */
  lemma {:induction false} StoreEntry<A, B>(xs: Dict<A>, f: (nat, A) -> Result<Option<B>>, k: nat, j: nat)
    requires j < k <= |xs| && DistinctKeys(xs)
    requires Store(xs, f, k).Ok?
    ensures Get(Store(xs, f, k).value, xs[j].0) == f(j, xs[j].1).value
  {
    if j < k - 1 {
      StoreEntry(xs, f, k - 1, j);
    } else {
      StoreAbsent(xs, f, k - 1, xs[j].0);
    }
  }
}

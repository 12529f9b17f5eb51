/** The two list-building patterns the source writes as for-loops over a list:
    keep-and-transform (`if cond: out.append(f(x))`) and flatten
    (`for x in xs: for y in g(x): out.append(y)`). */
module Seqs {
  import opened Values

  /** The values `f` yields, in the order of `xs`; an element yielding `None` is dropped. */
  function FilterMap<A, B>(xs: seq<A>, f: A -> Option<B>): (r: seq<B>)
    ensures |r| <= |xs|
  {
    if xs == [] then []
    else
      var init := FilterMap(xs[..|xs| - 1], f);
      match f(xs[|xs| - 1])
      case Some(y) => init + [y]
      case None => init
  }

  /** The lists `f` yields, concatenated in the order of `xs`. */
  function FlatMap<A, B>(xs: seq<A>, f: A -> seq<B>): seq<B>
  {
    if xs == [] then [] else FlatMap(xs[..|xs| - 1], f) + f(xs[|xs| - 1])
  }

  /** Filtering distributes over concatenation: the output keeps the input order. */
  lemma {:induction false} FilterMapAppend<A, B>(xs: seq<A>, ys: seq<A>, f: A -> Option<B>)
    ensures FilterMap(xs + ys, f) == FilterMap(xs, f) + FilterMap(ys, f)
    decreases |ys|
  {
    if ys != [] {
      assert (xs + ys)[..|xs + ys| - 1] == xs + ys[..|ys| - 1];
      FilterMapAppend(xs, ys[..|ys| - 1], f);
    } else {
      assert xs + ys == xs;
    }
  }

  /** Every kept value comes from an element of the input. */
  lemma {:induction false} FilterMapSound<A, B>(xs: seq<A>, f: A -> Option<B>, k: nat)
    requires k < |FilterMap(xs, f)|
    ensures exists i :: 0 <= i < |xs| && f(xs[i]) == Some(FilterMap(xs, f)[k])
    decreases |xs|
  {
    var init := FilterMap(xs[..|xs| - 1], f);
    if k < |init| {
      FilterMapSound(xs[..|xs| - 1], f, k);
      var i :| 0 <= i < |xs[..|xs| - 1]| && f(xs[..|xs| - 1][i]) == Some(init[k]);
      assert xs[i] == xs[..|xs| - 1][i];
    } else {
      assert f(xs[|xs| - 1]) == Some(FilterMap(xs, f)[k]);
    }
  }

  /** Every element for which `f` yields a value contributes that value. */
  lemma {:induction false} FilterMapComplete<A, B>(xs: seq<A>, f: A -> Option<B>, i: nat)
    requires i < |xs| && f(xs[i]).Some?
    ensures f(xs[i]).value in FilterMap(xs, f)
    decreases |xs|
  {
    if i < |xs| - 1 {
      assert xs[..|xs| - 1][i] == xs[i];
      FilterMapComplete(xs[..|xs| - 1], f, i);
    }
  }

  /** When `f` yields a value for every element, nothing is dropped. */
  lemma {:induction false} FilterMapAll<A, B>(xs: seq<A>, f: A -> Option<B>)
    requires forall i :: 0 <= i < |xs| ==> f(xs[i]).Some?
    ensures |FilterMap(xs, f)| == |xs|
    ensures forall i :: 0 <= i < |xs| ==> f(xs[i]) == Some(FilterMap(xs, f)[i])
    decreases |xs|
  {
    if xs != [] {
      var init := xs[..|xs| - 1];
      assert forall i :: 0 <= i < |init| ==> init[i] == xs[i];
      FilterMapAll(init, f);
    }
  }

  /** When `f` yields nothing for any element, the output is empty. */
  lemma {:induction false} FilterMapNone<A, B>(xs: seq<A>, f: A -> Option<B>)
    requires forall i :: 0 <= i < |xs| ==> f(xs[i]).None?
    ensures FilterMap(xs, f) == []
    decreases |xs|
  {
    if xs != [] {
      var init := xs[..|xs| - 1];
      assert forall i :: 0 <= i < |init| ==> init[i] == xs[i];
      FilterMapNone(init, f);
    }
  }

  /** Flattening distributes over concatenation. */
  lemma {:induction false} FlatMapAppend<A, B>(xs: seq<A>, ys: seq<A>, f: A -> seq<B>)
    ensures FlatMap(xs + ys, f) == FlatMap(xs, f) + FlatMap(ys, f)
    decreases |ys|
  {
    if ys != [] {
      assert (xs + ys)[..|xs + ys| - 1] == xs + ys[..|ys| - 1];
      FlatMapAppend(xs, ys[..|ys| - 1], f);
    } else {
      assert xs + ys == xs;
    }
  }

  /** When `f` yields an empty list for every element, the output is empty. */
  lemma {:induction false} FlatMapEmpty<A, B>(xs: seq<A>, f: A -> seq<B>)
    requires forall i :: 0 <= i < |xs| ==> f(xs[i]) == []
    ensures FlatMap(xs, f) == []
    decreases |xs|
  {
    if xs != [] {
      var init := xs[..|xs| - 1];
      assert forall i :: 0 <= i < |init| ==> init[i] == xs[i];
      FlatMapEmpty(init, f);
    }
  }

  /** Every flattened value comes from the list of some element of the input. */
  lemma {:induction false} FlatMapSound<A, B>(xs: seq<A>, f: A -> seq<B>, k: nat)
    requires k < |FlatMap(xs, f)|
    ensures exists i :: 0 <= i < |xs| && FlatMap(xs, f)[k] in f(xs[i])
    decreases |xs|
  {
    var init := FlatMap(xs[..|xs| - 1], f);
    if k < |init| {
      FlatMapSound(xs[..|xs| - 1], f, k);
      var i :| 0 <= i < |xs[..|xs| - 1]| && init[k] in f(xs[..|xs| - 1][i]);
      assert xs[i] == xs[..|xs| - 1][i];
    } else {
      assert FlatMap(xs, f)[k] == f(xs[|xs| - 1])[k - |init|];
    }
  }

  /** The flattened length is the sum of the lengths of the parts. */
  function TotalLength<A, B>(xs: seq<A>, f: A -> seq<B>): nat
  {
    if xs == [] then 0 else TotalLength(xs[..|xs| - 1], f) + |f(xs[|xs| - 1])|
  }

  lemma {:induction false} FlatMapLength<A, B>(xs: seq<A>, f: A -> seq<B>)
    ensures |FlatMap(xs, f)| == TotalLength(xs, f)
    decreases |xs|
  {
    if xs != [] {
      FlatMapLength(xs[..|xs| - 1], f);
    }
  }

  /** A list built element by element where building one element may raise: the first
      failure in input order aborts the whole list. */
  function Collect<A, B>(xs: seq<A>, f: A -> Result<B>): (r: Result<seq<B>>)
    ensures r.Ok? ==> |r.value| == |xs|
  {
    if xs == [] then Ok([])
    else
      match Collect(xs[..|xs| - 1], f)
      case Err(e) => Err(e)
      case Ok(init) =>
        match f(xs[|xs| - 1])
        case Err(e) => Err(e)
        case Ok(y) => Ok(init + [y])
  }

  /** The list is built exactly when every element builds, and then element by element. */
  lemma {:induction false} CollectOk<A, B>(xs: seq<A>, f: A -> Result<B>)
    ensures Collect(xs, f).Ok? <==> forall i :: 0 <= i < |xs| ==> f(xs[i]).Ok?
    ensures Collect(xs, f).Ok? ==> forall i :: 0 <= i < |xs| ==> f(xs[i]) == Ok(Collect(xs, f).value[i])
    decreases |xs|
  {
    if xs != [] {
      var init := xs[..|xs| - 1];
      assert forall i :: 0 <= i < |init| ==> init[i] == xs[i];
      CollectOk(init, f);
    }
  }

  /** A failure is the failure of the first element that does not build. */
  lemma {:induction false} CollectErr<A, B>(xs: seq<A>, f: A -> Result<B>)
    requires Collect(xs, f).Err?
    ensures exists i ::
      && 0 <= i < |xs| && f(xs[i]) == Err(Collect(xs, f).error)
      && forall j :: 0 <= j < i ==> f(xs[j]).Ok?
    decreases |xs|
  {
    var init := xs[..|xs| - 1];
    assert forall i :: 0 <= i < |init| ==> init[i] == xs[i];
    if Collect(init, f).Err? {
      CollectErr(init, f);
    } else {
      CollectOk(init, f);
    }
  }

  /** Once a prefix fails, the whole list fails the same way. */
  lemma {:induction false} CollectPrefixErr<A, B>(xs: seq<A>, f: A -> Result<B>, j: nat)
    requires j <= |xs| && Collect(xs[..j], f).Err?
    ensures Collect(xs, f) == Collect(xs[..j], f)
    decreases |xs|
  {
    if j == |xs| {
      assert xs[..j] == xs;
    } else {
      var init := xs[..|xs| - 1];
      assert init[..j] == xs[..j];
      CollectPrefixErr(init, f, j);
    }
  }

  /** The loop that builds a list of records, stopping at the first element that raises. */
  method CollectAll<A, B>(xs: seq<A>, f: A -> Result<B>) returns (r: Result<seq<B>>)
    ensures r == Collect(xs, f)
  {
    var out := [];
    for i := 0 to |xs|
      invariant Collect(xs[..i], f) == Ok(out)
    {
      assert xs[..i + 1][..i] == xs[..i];
      match f(xs[i])
      case Err(e) =>
        CollectPrefixErr(xs, f, i + 1);
        return Err(e);
      case Ok(y) =>
        out := out + [y];
    }
    assert xs[..|xs|] == xs;
    return Ok(out);
  }
}

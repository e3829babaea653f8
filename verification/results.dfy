/** Failure-carrying result types shared by every part of the model. */
module Results {

  /** An optional value: `None` models a Rust `None` or a parse failure. */
  datatype Option<+T> = None | Some(value: T)

  /** The outcome of an operation that can fail with an error of type `E`. */
  datatype Result<+T, +E> = Ok(value: T) | Failure(error: E)

  /** `f` applied to every element, in order. */
  function Map<A, B>(f: A -> B, xs: seq<A>): seq<B>
    decreases |xs|
  {
    if |xs| == 0 then [] else Map(f, xs[..|xs| - 1]) + [f(xs[|xs| - 1])]
  }

  /** One image per element, at the element's index. */
  lemma {:induction false} MapSpec<A, B>(f: A -> B, xs: seq<A>)
    ensures |Map(f, xs)| == |xs|
    ensures forall i :: 0 <= i < |xs| ==> Map(f, xs)[i] == f(xs[i])
    decreases |xs|
  {
    if |xs| > 0 {
      var init := xs[..|xs| - 1];
      MapSpec(f, init);
      assert forall i :: 0 <= i < |init| ==> init[i] == xs[i];
    }
  }

  /** Mapping one more element appends its image. */
  lemma MapStep<A, B>(f: A -> B, xs: seq<A>, k: nat)
    requires k < |xs|
    ensures Map(f, xs[..k + 1]) == Map(f, xs[..k]) + [f(xs[k])]
  {
    assert xs[..k + 1][..k] == xs[..k];
  }

  /** Collecting results in order, as `collect::<Result<Vec<_>, _>>()` and a
      loop using `?` both do: every value when all succeed, otherwise the
      error of the first failure. */
  function Collect<T, E>(rs: seq<Result<T, E>>): Result<seq<T>, E>
    decreases |rs|
  {
    if |rs| == 0 then Ok([])
    else
      match Collect(rs[..|rs| - 1])
      case Failure(e) => Failure(e)
      case Ok(vs) =>
        match rs[|rs| - 1]
        case Failure(e) => Failure(e)
        case Ok(v) => Ok(vs + [v])
  }

  /** Collecting succeeds exactly when every result does, and then yields
      every value in order; otherwise it fails with the error of a failure
      that only successes precede. */
  lemma {:induction false} CollectSpec<T, E>(rs: seq<Result<T, E>>)
    ensures Collect(rs).Ok? <==> forall i :: 0 <= i < |rs| ==> rs[i].Ok?
    ensures Collect(rs).Ok? ==>
              |Collect(rs).value| == |rs| && forall i :: 0 <= i < |rs| ==> rs[i] == Ok(Collect(rs).value[i])
    ensures Collect(rs).Failure? ==>
              exists i :: 0 <= i < |rs| && rs[i] == Failure(Collect(rs).error)
                          && forall j :: 0 <= j < i ==> rs[j].Ok?
    decreases |rs|
  {
    if |rs| > 0 {
      var init := rs[..|rs| - 1];
      CollectSpec(init);
      assert forall i :: 0 <= i < |init| ==> init[i] == rs[i];
    }
  }

  /** One more success appends its value. */
  lemma CollectAppend<T, E>(rs: seq<Result<T, E>>, vs: seq<T>, v: T)
    requires Collect(rs) == Ok(vs)
    ensures Collect(rs + [Ok(v)]) == Ok(vs + [v])
  {
    assert (rs + [Ok(v)])[..|rs|] == rs;
  }

  /** After a failure, more results change nothing. */
  lemma CollectFailureExtends<T, E>(rs: seq<Result<T, E>>, r: Result<T, E>)
    requires Collect(rs).Failure?
    ensures Collect(rs + [r]) == Collect(rs)
  {
    assert (rs + [r])[..|rs|] == rs;
  }

  /** After all successes, a failure decides the error of every extension. */
  lemma {:induction false} CollectFailsAt<T, E>(rs: seq<Result<T, E>>, k: nat)
    requires k < |rs| && rs[k].Failure?
    requires Collect(rs[..k]).Ok?
    ensures Collect(rs) == Failure(rs[k].error)
  {
    var r := Collect(rs);
    CollectSpec(rs);
    CollectSpec(rs[..k]);
    assert !r.Ok?;
    var i :| 0 <= i < |rs| && rs[i] == Failure(r.error) && forall j :: 0 <= j < i ==> rs[j].Ok?;
    assert k <= i;
  }

  /** Mapping and collecting one more element whose image succeeds appends
      its value. */
  lemma CollectMapAppend<A, T, E>(f: A -> Result<T, E>, xs: seq<A>, k: nat, vs: seq<T>)
    requires k < |xs| && Collect(Map(f, xs[..k])) == Ok(vs) && f(xs[k]).Ok?
    ensures Collect(Map(f, xs[..k + 1])) == Ok(vs + [f(xs[k]).value])
  {
    MapStep(f, xs, k);
    CollectAppend(Map(f, xs[..k]), vs, f(xs[k]).value);
  }

  /** Once a prefix fails, the elements after it are never looked at. */
  lemma {:induction false} CollectMapFailureExtends<A, T, E>(f: A -> Result<T, E>, xs: seq<A>, k: nat)
    requires k <= |xs| && Collect(Map(f, xs[..k])).Failure?
    ensures Collect(Map(f, xs)) == Collect(Map(f, xs[..k]))
    decreases |xs|
  {
    if k < |xs| {
      var init := xs[..|xs| - 1];
      assert init[..k] == xs[..k];
      CollectMapFailureExtends(f, init, k);
      CollectFailureExtends(Map(f, init), f(xs[|xs| - 1]));
    } else {
      assert xs[..k] == xs;
    }
  }

  /** The first failing image, after successes only, is the error of the
      whole sequence. */
  lemma CollectMapFailsAt<A, T, E>(f: A -> Result<T, E>, xs: seq<A>, k: nat, vs: seq<T>)
    requires k < |xs| && Collect(Map(f, xs[..k])) == Ok(vs) && f(xs[k]).Failure?
    ensures Collect(Map(f, xs)) == Failure(f(xs[k]).error)
  {
    MapStep(f, xs, k);
    CollectMapFailureExtends(f, xs, k + 1);
  }

  /** When every image succeeds, collecting yields all their values. */
  lemma CollectMapAll<A, T, E>(f: A -> Result<T, E>, xs: seq<A>, vs: seq<T>)
    requires |xs| == |vs| && forall i :: 0 <= i < |xs| ==> f(xs[i]) == Ok(vs[i])
    ensures Collect(Map(f, xs)) == Ok(vs)
  {
    MapSpec(f, xs);
    CollectSpec(Map(f, xs));
    assert Collect(Map(f, xs)).value == vs;
  }
}

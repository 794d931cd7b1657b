/** Optional values, results that carry an error, and the "collect into a Result" loop. */
module Wrappers {

  datatype Option<+T> = None | Some(value: T)

  datatype Result<+T, +E> = Ok(value: T) | Err(error: E) {
    predicate IsFailure() {
      Err?
    }

    function PropagateFailure<U>(): Result<U, E>
      requires Err?
    {
      Err(error)
    }

    function Extract(): T
      requires Ok?
    {
      value
    }
  }

  /** Apply f from left to right; the first error wins. */
  function MapResult<A, B, E>(f: A -> Result<B, E>, xs: seq<A>): Result<seq<B>, E> {
    if xs == [] then Ok([])
    else
      var y :- f(xs[0]);
      var ys :- MapResult(f, xs[1..]);
      Ok([y] + ys)
  }

  /** What a loop has pushed so far, followed by what the rest of the input yields. */
  function After<B, E>(done: seq<B>, rest: Result<seq<B>, E>): Result<seq<B>, E> {
    var ys :- rest;
    Ok(done + ys)
  }

  lemma AfterNothing<B, E>(rest: Result<seq<B>, E>)
    ensures After([], rest) == rest
  {
    if rest.Ok? {
      assert [] + rest.value == rest.value;
    }
  }

  /** One turn of a push loop: the element at i moves from the rest to the part that is done. */
  lemma MapResultStep<A, B, E>(f: A -> Result<B, E>, xs: seq<A>, i: nat, done: seq<B>)
    requires i < |xs|
    ensures f(xs[i]).Err? ==> After(done, MapResult(f, xs[i..])) == Err(f(xs[i]).error)
    ensures f(xs[i]).Ok? ==>
              After(done, MapResult(f, xs[i..])) == After(done + [f(xs[i]).value], MapResult(f, xs[i + 1..]))
  {
    assert xs[i..][0] == xs[i] && xs[i..][1..] == xs[i + 1..];
    if f(xs[i]).Ok? && MapResult(f, xs[i + 1..]).Ok? {
      var y, ys := f(xs[i]).value, MapResult(f, xs[i + 1..]).value;
      assert done + ([y] + ys) == (done + [y]) + ys;
    }
  }

  /** A printer succeeds on a sequence if and only if it succeeds on every element. */
  lemma {:induction false} MapResultOk<A, B, E>(f: A -> Result<B, E>, xs: seq<A>)
    ensures MapResult(f, xs).Ok? <==> forall i :: 0 <= i < |xs| ==> f(xs[i]).Ok?
    ensures MapResult(f, xs).Ok? ==>
              && |MapResult(f, xs).value| == |xs|
              && forall i :: 0 <= i < |xs| ==> f(xs[i]) == Ok(MapResult(f, xs).value[i])
  {
    if xs == [] {
    } else {
      MapResultOk(f, xs[1..]);
      assert forall i :: 1 <= i < |xs| ==> xs[i] == xs[1..][i - 1];
      assert forall i :: 0 <= i < |xs[1..]| ==> xs[1..][i] == xs[i + 1];
    }
  }

  /** Parsing a printed sequence gives it back if and only if that holds of each element. */
  lemma MapResultRoundTrip<A, B, E, F>(
    write: A -> Result<B, E>, read: B -> Result<A, F>, xs: seq<A>)
    requires MapResult(write, xs).Ok?
    ensures forall i :: 0 <= i < |xs| ==> write(xs[i]).Ok?
    ensures MapResult(read, MapResult(write, xs).value) == Ok(xs) <==>
            forall i :: 0 <= i < |xs| ==> read(write(xs[i]).value) == Ok(xs[i])
  {
    MapResultOk(write, xs);
    var ys := MapResult(write, xs).value;
    MapResultOk(read, ys);
    if forall i :: 0 <= i < |xs| ==> read(write(xs[i]).value) == Ok(xs[i]) {
      assert forall i :: 0 <= i < |ys| ==> read(ys[i]) == Ok(xs[i]);
      assert MapResult(read, ys).value == xs;
    }
    if MapResult(read, ys) == Ok(xs) {
      assert forall i :: 0 <= i < |xs| ==> read(ys[i]) == Ok(xs[i]);
    }
  }

  /** What a sequence is read as: as many elements, each read as its own. */
  lemma MapResultIff<A, B, E>(f: A -> Result<B, E>, xs: seq<A>, ys: seq<B>)
    ensures MapResult(f, xs) == Ok(ys) <==> |ys| == |xs| && forall i :: 0 <= i < |xs| ==> f(xs[i]) == Ok(ys[i])
  {
    MapResultOk(f, xs);
    if |ys| == |xs| && forall i :: 0 <= i < |xs| ==> f(xs[i]) == Ok(ys[i]) {
      assert MapResult(f, xs).value == ys;
    }
  }
}

/**
 * The scraper aborts (a Rust panic) wherever it calls `unwrap()` on nothing
 * or indexes past the end of a vector. Here each such point returns an
 * `Error` instead, of the kind that names what was missing.
 */
module Results {

  datatype Error =
    | StructureMismatch          // a line, row, cell, segment or token the code indexes is not there
    | MalformedNumericField      // an id or a number of places is not a `u32`
    | UnknownMonthName(name: string)  // a month name missing from the month table
    | MalformedTimeField         // a time cell with fewer than four `&nbsp;`-separated tokens

  datatype Result<+T> = Ok(value: T) | Err(error: Error)

  /**
   * Applies `f` to every element in order and collects the results, stopping
   * at the first error, as a loop that pushes each result and panics on the
   * first failure does. The result is `Ok` exactly when every element
   * succeeds, and then holds one result per element, in order; otherwise it
   * is the error of the first element that fails.
   */
  function Traverse<A, B>(xs: seq<A>, f: A -> Result<B>): (r: Result<seq<B>>)
    ensures r.Ok? <==> forall i :: 0 <= i < |xs| ==> f(xs[i]).Ok?
    ensures r.Ok? ==> |r.value| == |xs| && forall i :: 0 <= i < |xs| ==> f(xs[i]) == Ok(r.value[i])
    ensures r.Err? ==> exists k :: 0 <= k < |xs| && f(xs[k]) == Err(r.error)
                                   && forall j :: 0 <= j < k ==> f(xs[j]).Ok?
    decreases |xs|
  {
    if xs == [] then Ok([])
    else
      var init := xs[..|xs| - 1];
      assert forall i :: 0 <= i < |init| ==> init[i] == xs[i];
      match Traverse(init, f)
      case Err(e) => Err(e)
      case Ok(ys) =>
        match f(xs[|xs| - 1])
        case Err(e) => Err(e)
        case Ok(y) => Ok(ys + [y])
  }

  /** The first element that fails decides the error, whatever comes after it. */
  lemma TraverseFirstError<A, B>(xs: seq<A>, f: A -> Result<B>, k: nat)
    requires k < |xs| && f(xs[k]).Err?
    requires forall j :: 0 <= j < k ==> f(xs[j]).Ok?
    ensures Traverse(xs, f) == Err(f(xs[k]).error)
  {
  }

  /** Extending the elements by one, as one step of the loop does. */
  lemma TraverseSnoc<A, B>(xs: seq<A>, f: A -> Result<B>, i: nat)
    requires i < |xs|
    ensures Traverse(xs[..i + 1], f) ==
      match Traverse(xs[..i], f)
      case Err(e) => Err(e)
      case Ok(ys) => (match f(xs[i]) case Err(e) => Err(e) case Ok(y) => Ok(ys + [y]))
  {
    assert xs[..i + 1][..i] == xs[..i];
  }

  /** Two elements: the first one's error, else the second one's, else both results. */
  lemma TraversePair<A, B>(a: A, b: A, f: A -> Result<B>)
    ensures Traverse([a, b], f) ==
      match f(a)
      case Err(e) => Err(e)
      case Ok(s) => (match f(b) case Err(e) => Err(e) case Ok(t) => Ok([s, t]))
  {
    var xs := [a, b];
    TraverseSnoc(xs, f, 0);
    TraverseSnoc(xs, f, 1);
    assert xs[..0] == [] && xs[..1] == [a] && xs[..2] == xs;
    assert Traverse([], f) == Ok([]);
    if f(a).Ok? && f(b).Ok? {
      assert [] + [f(a).value] == [f(a).value];
      assert [f(a).value] + [f(b).value] == [f(a).value, f(b).value];
    }
  }

  /** A loop that has succeeded on a prefix and fails on the next element stops with that element's error. */
  lemma TraverseStopsAtError<A, B>(xs: seq<A>, f: A -> Result<B>, i: nat)
    requires i < |xs| && Traverse(xs[..i], f).Ok? && f(xs[i]).Err?
    ensures Traverse(xs, f) == Err(f(xs[i]).error)
  {
    assert forall j :: 0 <= j < i ==> xs[..i][j] == xs[j];
    TraverseFirstError(xs, f, i);
  }
}

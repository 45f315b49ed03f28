/** Failure-compatible wrappers shared by the modules of this project. */
module Wrappers {

  /** A value that may be absent (Python `None`, TypeScript `null`). */
  datatype Option<+T> = None | Some(value: T)

  /** The outcome of an operation that may raise. */
  datatype Result<+T, +E> = Ok(value: T) | Err(error: E)

  /** A loop that applies g to each element in order and stops at the first
      element for which g raises. */
  function Traverse<T, U, E>(xs: seq<T>, g: T -> Result<U, E>): Result<seq<U>, E>
  {
    if xs == [] then Ok([])
    else
      match Traverse(xs[..|xs| - 1], g)
      case Err(e) => Err(e)
      case Ok(us) =>
        match g(xs[|xs| - 1])
        case Err(e) => Err(e)
        case Ok(u) => Ok(us + [u])
  }

  /** One more pass of the loop. */
  lemma TraverseSnoc<T, U, E>(xs: seq<T>, g: T -> Result<U, E>, j: nat, us: seq<U>)
    requires j < |xs| && Traverse(xs[..j], g) == Ok(us)
    ensures Traverse(xs[..j + 1], g) == if g(xs[j]).Err? then Err(g(xs[j]).error) else Ok(us + [g(xs[j]).value])
  {
    assert xs[..j + 1][..j] == xs[..j];
  }

  /** After the first error no later element is reached. */
  lemma {:induction false} TraverseErrorStops<T, U, E>(xs: seq<T>, g: T -> Result<U, E>, j: nat)
    requires j < |xs| && Traverse(xs[..j + 1], g).Err?
    ensures Traverse(xs, g) == Traverse(xs[..j + 1], g)
    decreases |xs|
  {
    if j + 1 == |xs| {
      assert xs[..j + 1] == xs;
    } else {
      var init := xs[..|xs| - 1];
      assert init[..j + 1] == xs[..j + 1];
      TraverseErrorStops(init, g, j);
    }
  }

  /** The loop completes exactly when no element raises. */
  lemma {:induction false} TraverseOk<T, U, E>(xs: seq<T>, g: T -> Result<U, E>)
    ensures Traverse(xs, g).Ok? <==> forall j :: 0 <= j < |xs| ==> g(xs[j]).Ok?
  {
    if xs != [] {
      var init := xs[..|xs| - 1];
      TraverseOk(init, g);
      assert forall j :: 0 <= j < |init| ==> init[j] == xs[j];
    }
  }

  /** A completed loop has one result per element, in order. */
  lemma {:induction false} TraverseValues<T, U, E>(xs: seq<T>, g: T -> Result<U, E>)
    requires Traverse(xs, g).Ok?
    ensures |Traverse(xs, g).value| == |xs|
    ensures forall j :: 0 <= j < |xs| ==> Ok(Traverse(xs, g).value[j]) == g(xs[j])
  {
    if xs != [] {
      var init := xs[..|xs| - 1];
      TraverseValues(init, g);
      var us := Traverse(init, g).value;
      forall j | 0 <= j < |xs| ensures Ok(Traverse(xs, g).value[j]) == g(xs[j]) {
        if j < |init| {
          assert Traverse(xs, g).value[j] == us[j] && init[j] == xs[j];
        }
      }
    }
  }
}

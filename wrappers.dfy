/** Optional values, fallible results, and the "map each element, abort on the
    first failure" traversal that the renderer and the dumper both perform when a
    collaborator throws inside their loops. */
module Wrappers {

  datatype Option<+T> = None | Some(value: T)

  datatype Result<+R, +E> = Success(value: R) | Failure(error: E)

  /** Applies `f` to every element in order; the first failure aborts the whole
      traversal, exactly like an exception escaping a C++ range-for loop. */
  function Traverse<A, B, E>(xs: seq<A>, f: A -> Result<B, E>): Result<seq<B>, E>
  {
    if xs == [] then Success([])
    else
      match f(xs[0])
      case Failure(e) => Failure(e)
      case Success(y) =>
        match Traverse(xs[1..], f)
        case Failure(e) => Failure(e)
        case Success(ys) => Success([y] + ys)
  }

  /** `done` followed by whatever the rest of a traversal produces. */
  function Prepend<B, E>(done: seq<B>, rest: Result<seq<B>, E>): Result<seq<B>, E>
  {
    match rest
    case Success(ys) => Success(done + ys)
    case Failure(e) => Failure(e)
  }

  lemma PrependNothing<B, E>(rest: Result<seq<B>, E>)
    ensures Prepend([], rest) == rest
  {
    if rest.Success? {
      assert [] + rest.value == rest.value;
    }
  }

  lemma PrependTwice<B, E>(done: seq<B>, more: seq<B>, rest: Result<seq<B>, E>)
    ensures Prepend(done, Prepend(more, rest)) == Prepend(done + more, rest)
  {
    if rest.Success? {
      assert done + (more + rest.value) == (done + more) + rest.value;
    }
  }

  /** A traversal succeeds exactly when every element succeeds, and then it
      holds the elements' results position by position. */
  lemma {:induction false} TraverseSuccess<A, B, E>(xs: seq<A>, f: A -> Result<B, E>)
    ensures Traverse(xs, f).Success? <==> forall k :: 0 <= k < |xs| ==> f(xs[k]).Success?
    ensures Traverse(xs, f).Success? ==>
              |Traverse(xs, f).value| == |xs| &&
              forall k :: 0 <= k < |xs| ==> Traverse(xs, f).value[k] == f(xs[k]).value
  {
    if xs != [] {
      TraverseSuccess(xs[1..], f);
      if f(xs[0]).Success? && Traverse(xs[1..], f).Success? {
        forall k | 0 <= k < |xs|
          ensures Traverse(xs, f).value[k] == f(xs[k]).value
        {
          if k > 0 { assert xs[1..][k - 1] == xs[k]; }
        }
      } else if f(xs[0]).Success? {
        var k :| 0 <= k < |xs[1..]| && !f(xs[1..][k]).Success?;
        assert xs[1..][k] == xs[k + 1];
      }
    }
  }

  /** A failing traversal reports the error of the FIRST failing element. */
  lemma {:induction false} TraverseFailure<A, B, E>(xs: seq<A>, f: A -> Result<B, E>)
    requires Traverse(xs, f).Failure?
    ensures exists k :: 0 <= k < |xs| && f(xs[k]).Failure? &&
                        Traverse(xs, f).error == f(xs[k]).error &&
                        forall j :: 0 <= j < k ==> f(xs[j]).Success?
  {
    if f(xs[0]).Failure? {
      assert 0 < |xs| && f(xs[0]).Failure? && Traverse(xs, f).error == f(xs[0]).error;
    } else {
      TraverseFailure(xs[1..], f);
      var k :| 0 <= k < |xs[1..]| && f(xs[1..][k]).Failure? &&
               Traverse(xs[1..], f).error == f(xs[1..][k]).error &&
               forall j :: 0 <= j < k ==> f(xs[1..][j]).Success?;
      forall j | 0 <= j < k + 1 ensures f(xs[j]).Success? {
        if j > 0 { assert xs[j] == xs[1..][j - 1]; }
      }
      assert xs[k + 1] == xs[1..][k];
    }
  }

  /** One step of a left-to-right loop over `xs`: having produced `done` for
      `xs[..i]`, the outcome of the whole traversal is `done` followed by the
      traversal of the suffix, and the suffix unfolds by one element. */
  lemma TraverseStep<A, B, E>(xs: seq<A>, i: nat, f: A -> Result<B, E>)
    requires i < |xs|
    ensures Traverse(xs[i..], f) ==
              match f(xs[i])
              case Failure(e) => Failure(e)
              case Success(y) => Prepend([y], Traverse(xs[i + 1..], f))
  {
    assert xs[i..][0] == xs[i];
    assert xs[i..][1..] == xs[i + 1..];
  }
}

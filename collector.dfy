/**
 * The collection loop of main: await the futures in submission order and
 * concatenate the lists they hold. A future whose task threw holds the
 * exception; it is reported and contributes nothing.
 */
module Collector {

  /** What Future.get gives: the task's list, or an ExecutionException with its message. */
  datatype Outcome = Success(value: seq<string>) | Failure(message: string)

  /** What one future adds to the result. */
  function Contribution(o: Outcome): seq<string>
  {
    match o
    case Success(value) => value
    case Failure(_) => []
  }

  /** The aggregated result: the successful lists, concatenated in submission order. */
  function Flatten(futures: seq<Outcome>): seq<string>
  {
    if futures == [] then [] else Contribution(futures[0]) + Flatten(futures[1..])
  }

  /** The messages of the failed futures, in submission order. */
  function FailureMessages(futures: seq<Outcome>): seq<string>
  {
    if futures == [] then []
    else (if futures[0].Failure? then [futures[0].message] else []) + FailureMessages(futures[1..])
  }

  lemma {:induction false} FlattenAppend(a: seq<Outcome>, b: seq<Outcome>)
    ensures Flatten(a + b) == Flatten(a) + Flatten(b)
    ensures FailureMessages(a + b) == FailureMessages(a) + FailureMessages(b)
  {
    if a == [] {
      assert a + b == b;
    } else {
      assert (a + b)[0] == a[0];
      assert (a + b)[1..] == a[1..] + b;
      FlattenAppend(a[1..], b);
    }
  }

  /** Every path in the result comes from a successful future, and every path of a successful future is in it. */
  lemma {:induction false} FlattenMembership(futures: seq<Outcome>, p: string)
    ensures p in Flatten(futures) <==> exists i :: 0 <= i < |futures| && futures[i].Success? && p in futures[i].value
  {
    if futures != [] {
      FlattenMembership(futures[1..], p);
      if p in Flatten(futures[1..]) {
        var i :| 0 <= i < |futures[1..]| && futures[1..][i].Success? && p in futures[1..][i].value;
        assert futures[i + 1] == futures[1..][i];
      }
      forall i | 0 <= i < |futures| && futures[i].Success? && p in futures[i].value
        ensures p in Flatten(futures)
      {
        if i > 0 {
          assert futures[1..][i - 1] == futures[i];
        }
      }
    }
  }

  /** When every future holds at most one path, the result has at most one path per future. */
  lemma {:induction false} FlattenLength(futures: seq<Outcome>)
    requires forall i :: 0 <= i < |futures| && futures[i].Success? ==> |futures[i].value| <= 1
    ensures |Flatten(futures)| <= |futures|
  {
    if futures != [] {
      FlattenLength(futures[1..]);
    }
  }

  /**
   * The loop over the futures: add the list of each successful one to the
   * result, and report the message of each failed one without stopping.
   */
  method CollectResults(futures: seq<Outcome>) returns (result: seq<string>, diagnostics: seq<string>)
    ensures result == Flatten(futures)
    ensures diagnostics == FailureMessages(futures)
  {
    result, diagnostics := [], [];
    for i := 0 to |futures|
      invariant result == Flatten(futures[..i])
      invariant diagnostics == FailureMessages(futures[..i])
    {
      var future := futures[i];
      assert futures[..i + 1] == futures[..i] + [future];
      FlattenAppend(futures[..i], [future]);
      assert Flatten([future]) == Contribution(future) + Flatten([]);
      match future
      case Success(value) =>
        result := result + value;
      case Failure(message) =>
        diagnostics := diagnostics + [message];
    }
    assert futures[..|futures|] == futures;
  }
}

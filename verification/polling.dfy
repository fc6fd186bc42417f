/**
 * Waiting for a panel: the stages take a screenshot, match a template against
 * it, and retry until the match score reaches a threshold or the deadline
 * passes. The clock is not modelled: `captures` are the match results of the
 * screenshots taken before the deadline, in order.
 */
module Polling {

  import opened Wrappers
  import opened TemplateUtils

  /** Capture `k` is the first one to reach `threshold`, and every earlier match succeeded. */
  predicate FirstReaching(captures: seq<Result<Crop>>, threshold: real, k: int) {
    && 0 <= k < |captures|
    && captures[k].Ok? && captures[k].value.score >= threshold
    && forall j :: 0 <= j < k ==> captures[j].Ok? && captures[j].value.score < threshold
  }

  /** Capture `k` is a matcher failure, and every earlier match succeeded below `threshold`. */
  predicate FailsFirst(captures: seq<Result<Crop>>, threshold: real, k: int) {
    && 0 <= k < |captures|
    && captures[k].Err?
    && forall j :: 0 <= j < k ==> captures[j].Ok? && captures[j].value.score < threshold
  }

  /**
   * The outcome of polling: the first capture reaching the threshold; a
   * matcher failure before that ends polling with its error; running out of
   * captures is a TimeoutError carrying `message`.
   */
  function FirstAtLeast(captures: seq<Result<Crop>>, threshold: real, message: string): (r: Result<Crop>)
    ensures r.Ok? <==> exists k :: FirstReaching(captures, threshold, k)
    ensures r.Ok? ==> exists k :: FirstReaching(captures, threshold, k) && captures[k] == r
    ensures (forall k :: 0 <= k < |captures| ==> captures[k].Ok? && captures[k].value.score < threshold)
            ==> r == Err(TimeoutError(message))
    ensures r.Err? && r.error != TimeoutError(message) ==>
              exists k :: 0 <= k < |captures| && captures[k] == r
    ensures forall k :: FailsFirst(captures, threshold, k) ==> r == captures[k]
  {
    if captures == [] then Err(TimeoutError(message))
    else
      match captures[0]
      case Err(e) =>
        assert !FirstReaching(captures, threshold, 0);
        assert forall k :: 0 < k < |captures| ==> !FirstReaching(captures, threshold, k);
        Err(e)
      case Ok(g) =>
        if g.score >= threshold then
          assert FirstReaching(captures, threshold, 0);
          Ok(g)
        else
          var rest := FirstAtLeast(captures[1..], threshold, message);
          PastFirst(captures, threshold);
          assert rest.Ok? ==> exists k :: FirstReaching(captures, threshold, k) by {
            if rest.Ok? {
              var k :| FirstReaching(captures[1..], threshold, k);
              assert FirstReaching(captures, threshold, k + 1);
            }
          }
          rest
  }

  /** After a capture below the threshold, the rest of the captures decide. */
  lemma PastFirst(captures: seq<Result<Crop>>, threshold: real)
    requires captures != [] && captures[0].Ok? && captures[0].value.score < threshold
    ensures !FirstReaching(captures, threshold, 0) && !FailsFirst(captures, threshold, 0)
    ensures forall k :: 0 < k < |captures| ==>
      (FirstReaching(captures, threshold, k) <==> FirstReaching(captures[1..], threshold, k - 1))
    ensures forall k :: 0 < k < |captures| ==>
      (FailsFirst(captures, threshold, k) <==> FailsFirst(captures[1..], threshold, k - 1))
    ensures forall k :: 0 <= k < |captures| - 1 ==> captures[1..][k] == captures[k + 1]
  {
  }

  /** One step of a polling loop at capture `k`: stop with its error or its crop, or go on to the next. */
  lemma PollStep(captures: seq<Result<Crop>>, threshold: real, message: string, k: nat)
    requires k < |captures|
    ensures captures[k].Err? ==>
      FirstAtLeast(captures[k..], threshold, message) == Err(captures[k].error)
    ensures captures[k].Ok? && captures[k].value.score >= threshold ==>
      FirstAtLeast(captures[k..], threshold, message) == captures[k]
    ensures captures[k].Ok? && captures[k].value.score < threshold ==>
      FirstAtLeast(captures[k..], threshold, message) == FirstAtLeast(captures[k + 1..], threshold, message)
  {
    assert captures[k..][0] == captures[k];
    assert captures[k..][1..] == captures[k + 1..];
  }
}

/** Small datatypes and helpers shared by every module. */
module Prelude {

  datatype Option<+T> = None | Some(value: T)

  datatype Result<+R, +E> = Ok(value: R) | Err(error: E)

  function Last<T>(s: seq<T>): T
    requires |s| > 0
  {
    s[|s| - 1]
  }

  ghost predicate StrictlyIncreasing(s: seq<int>) {
    forall i, j :: 0 <= i < j < |s| ==> s[i] < s[j]
  }
}

/** Whether retrying an error can help. */
module RetryKinds {

  datatype Kind = Unknown | Retryable | NonRetryable {
    predicate ShouldRetry() {
      !NonRetryable?
    }
  }
}

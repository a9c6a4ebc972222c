// samples/Linux/getNextFrame.py: `get_next_frame`, a retry loop around the wrapper's
// `getNextFrame`. `attempt(k)` is the wrapper's reply to the k-th call (counting from 0);
// the frame buffer it fills is not modelled.

module GetNextFrame {
  import opened PxLApi
  import RC = ReturnCode

  /** A reply after which retrying makes no sense: success, a stopped stream, or no camera. */
  predicate Final<D>(ret: Reply<D>) {
    ApiSuccess(ret.rc) || ret.rc == RC.ApiStreamStopped || ret.rc == RC.ApiNoCameraAvailableError
  }

  /**
   * `get_next_frame(hCamera, frame, maxNumberOfTries)`: call until a final reply or until
   * the tries run out; `calls` is the number of calls made.
   */
  method GetNextFrameRetrying<D>(maxNumberOfTries: int, attempt: nat -> Reply<D>) returns (ret: Reply<D>, calls: nat)
    ensures calls <= if maxNumberOfTries < 0 then 0 else maxNumberOfTries
    ensures calls == 0 ==> ret == Failed(RC.ApiUnknownError)
    ensures calls > 0 ==> ret == attempt(calls - 1)
    ensures forall k :: 0 <= k < calls - 1 ==> !Final(attempt(k))
    ensures calls < maxNumberOfTries ==> calls > 0 && Final(ret)
  {
    ret := Failed(RC.ApiUnknownError);
    calls := 0;
    for i := 0 to if maxNumberOfTries < 0 then 0 else maxNumberOfTries
      invariant calls == i
      invariant calls == 0 ==> ret == Failed(RC.ApiUnknownError)
      invariant calls > 0 ==> ret == attempt(calls - 1)
      invariant forall k :: 0 <= k < calls ==> !Final(attempt(k))
    {
      ret := attempt(i);
      calls := calls + 1;
      if ApiSuccess(ret.rc) {
        return;
      } else {
        if RC.ApiStreamStopped == ret.rc || RC.ApiNoCameraAvailableError == ret.rc {
          return;
        }
      }
    }
  }
}

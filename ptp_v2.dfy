// samples/Linux/ptpV2.py: `transitory_ptp_state` and `main` after the camera is
// initialized: probe FEATURE_PTP, enable automatic mode, then poll the PTP status until the
// clock state machine settles and report the four parameters.

module PtpV2 {
  import opened Outcomes
  import opened PxLApi
  import FF = FeatureFlags
  import FID = FeatureId
  import P = Ptp

  const EXIT_SUCCESS: int := 0
  const EXIT_FAILURE: int := 1

  /** The states the sample waits through: the clock is still settling. */
  const TransitoryStates: set<int> := {P.INITIALIZING, P.LISTENING, P.PREMASTER, P.UNCALIBRATED}

  /** `transitory_ptp_state(state)`: a lookup in the nine-entry table, `False` for any other value. */
  function TransitoryPtpState(state: int): (r: bool)
    ensures r <==> state in TransitoryStates
  {
    if state == P.INITIALIZING then true
    else if state == P.FAULTY then false
    else if state == P.DISABLED then false
    else if state == P.LISTENING then true
    else if state == P.PREMASTER then true
    else if state == P.MASTER then false
    else if state == P.PASSIVE then false
    else if state == P.UNCALIBRATED then true
    else if state == P.SLAVE then false
    else false
  }

  /** The five stable states end the wait, and so does a value outside the table. */
  lemma StableStatesEndTheWait(state: int)
    ensures state in {P.FAULTY, P.DISABLED, P.MASTER, P.PASSIVE, P.SLAVE} ==> !TransitoryPtpState(state)
    ensures !(P.INITIALIZING <= state <= P.SLAVE) ==> !TransitoryPtpState(state)
  {
  }

  /** Where running `main` has got to: returned with an exit code, or still polling. */
  datatype Run = Exited(code: int) | Polling

  /**
   * What the polling loop (lines 68-90) does with the replies `polls` to its successive
   * `getFeature(hCamera, PTP)` calls, and how many of them it makes. The loop has no bound of
   * its own; `Polling` means every reply given was a settling state.
   */
  function SyncEnd(polls: seq<Reply<Feature>>): (e: (Outcome<Run>, nat))
    requires forall i :: 0 <= i < |polls| ==> polls[i].WellShaped()
    ensures e.1 <= |polls|
    ensures e.1 == 0 <==> |polls| == 0
  {
    if |polls| == 0 then (Normal(Polling), 0)
    else
      var p := polls[0];
      assert p.WellShaped();
      if !ApiSuccess(p.rc) then (Normal(Exited(EXIT_FAILURE)), 1)
      else if |p.value.params| <= P.STATUS then (Raised(IndexError), 1)
      else if !TransitoryPtpState(p.value.params[P.STATUS]) then
        (if |p.value.params| < 4 then Raised(IndexError) else Normal(Exited(EXIT_SUCCESS)), 1)
      else
        var rest := SyncEnd(polls[1..]);
        (rest.0, rest.1 + 1)
  }

  /** A poll the loop goes on from: it succeeded and reported a settling status. */
  predicate Settling(p: Reply<Feature>)
    requires p.WellShaped()
  {
    ApiSuccess(p.rc) && |p.value.params| > P.STATUS && TransitoryPtpState(p.value.params[P.STATUS])
  }

  /**
   * The loop makes polls up to and including the first that is not settling, and what it
   * returns is decided by that poll alone: a failure exits with EXIT_FAILURE, a short
   * parameter list raises IndexError, a stable status exits with EXIT_SUCCESS.
   */
  lemma {:induction false} SyncEndStopsAtFirstStable(polls: seq<Reply<Feature>>)
    requires forall i :: 0 <= i < |polls| ==> polls[i].WellShaped()
    ensures var (r, n) := SyncEnd(polls);
      && (forall k :: 0 <= k < n - 1 ==> Settling(polls[k]))
      && (r == Normal(Polling) <==> n == |polls| && forall k :: 0 <= k < |polls| ==> Settling(polls[k]))
      && (n > 0 && !Settling(polls[n - 1]) ==>
            var last := polls[n - 1];
            r == if !ApiSuccess(last.rc) then Normal(Exited(EXIT_FAILURE))
                 else if |last.value.params| < 4 then Raised(IndexError)
                 else Normal(Exited(EXIT_SUCCESS)))
      && (r == Normal(Exited(EXIT_SUCCESS)) ==>
            n > 0 && ApiSuccess(polls[n - 1].rc) && |polls[n - 1].value.params| >= 4
            && !TransitoryPtpState(polls[n - 1].value.params[P.STATUS]))
  {
    if |polls| > 0 && Settling(polls[0]) {
      var tail := polls[1..];
      SyncEndStopsAtFirstStable(tail);
      forall k | 1 <= k < |polls| ensures polls[k] == tail[k - 1] { }
    }
  }

  /** Lines 68-90: poll until the PTP status settles, then report the four parameters. */
  method WaitForSync(polls: seq<Reply<Feature>>) returns (r: Outcome<Run>, polled: nat)
    requires forall i :: 0 <= i < |polls| ==> polls[i].WellShaped()
    ensures (r, polled) == SyncEnd(polls)
  {
    polled := 0;
    var ptpParams: seq<int> := [];
    while true
      invariant polled <= |polls|
      invariant SyncEnd(polls) == (var rest := SyncEnd(polls[polled..]); (rest.0, rest.1 + polled))
      decreases |polls| - polled
    {
      if polled == |polls| {
        return Normal(Polling), polled;
      }
      var ret := polls[polled];
      assert polls[polled..][1..] == polls[polled + 1..];
      polled := polled + 1;
      if !ApiSuccess(ret.rc) {
        return Normal(Exited(EXIT_FAILURE)), polled;
      }
      ptpParams := ret.value.params;
      if |ptpParams| <= P.STATUS {
        return Raised(IndexError), polled;
      }
      if !TransitoryPtpState(ptpParams[P.STATUS]) {
        break;
      }
    }
    if |ptpParams| < 4 {
      return Raised(IndexError), polled;
    }
    r := Normal(Exited(EXIT_SUCCESS));
  }

  /** The parameter list `main` builds before the probe: `[0] * NUM_PARAMS`. */
  const ZeroParams: seq<int> := [0, 0, 0, 0]

  /**
   * `main` after `initialize` succeeds. `probeCount` and `probe` answer the first
   * `getFeature`, `native` the `setFeature`, `polls` the loop's queries. `getFeature` returns
   * a new list, so the request always carries AUTOMATIC followed by the three zeros.
   */
  method RunSample(probeCount: FeatureCount, probe: seq<int> -> NativeOut<Feature>,
              native: SetFeatureRequest -> int, polls: seq<Reply<Feature>>)
    returns (r: Outcome<Run>, sent: Option<SetFeatureRequest>, polled: nat)
    requires forall i :: 0 <= i < |polls| ==> polls[i].WellShaped()
    ensures !ApiSuccess(probeCount.rc) ==> r == Normal(Exited(EXIT_FAILURE)) && sent == None && polled == 0
    ensures ApiSuccess(probeCount.rc) && probeCount.numParams == 0 ==> r == Raised(IndexError) && sent == None
    ensures ApiSuccess(probeCount.rc) && probeCount.numParams > 0 ==>
      var probed := probe(SentParams(probeCount.numParams, Some(ZeroParams)));
      && (!ApiSuccess(probed.rc) ==> r == Normal(Exited(EXIT_FAILURE)) && sent == None && polled == 0)
      && (ApiSuccess(probed.rc) ==>
            && sent == Some(SetFeatureRequest(FID.PTP, FF.AUTO, 4, [P.AUTOMATIC, 0, 0, 0]))
            && (!ApiSuccess(native(sent.value)) ==> r == Normal(Exited(EXIT_FAILURE)) && polled == 0)
            && (ApiSuccess(native(sent.value)) ==> (r, polled) == SyncEnd(polls)))
  {
    var ptpParams := ZeroParams;
    polled := 0;
    var ret, _ := GetFeature(Some(ptpParams), probeCount, probe);
    if ret.Raised? {
      return Raised(ret.exc), None, 0;
    }
    if !ApiSuccess(ret.value.rc) {
      return Normal(Exited(EXIT_FAILURE)), None, 0;
    }
    ptpParams := ptpParams[P.MODE := P.AUTOMATIC];
    var rc, req := SetFeature(FID.PTP, FF.AUTO, ptpParams, native);
    assert req.params == [P.AUTOMATIC, 0, 0, 0];
    sent := Some(req);
    if !ApiSuccess(rc) {
      return Normal(Exited(EXIT_FAILURE)), sent, 0;
    }
    r, polled := WaitForSync(polls);
  }
}

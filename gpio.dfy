// samples/Windows/gpio.py: `supports_gpio`, which also chooses the global `gpiIndex`,
// `setup_gpios`, and `main`'s polling loop that copies the GPI onto the GPO on every change.
// Parameter values, floats in the sample, are whole numbers here.

module GpioSample {
  import opened Outcomes
  import opened PxLApi
  import FF = FeatureFlags
  import FID = FeatureId
  import G = Gpio

  const GPIO_ON: bool := true
  const GPIO_OFF: bool := false

  /** A reply the library can give: the feature list holds the GPIO feature, with its index and mode limits when present. */
  predicate FeaturesShaped(reply: Reply<CameraFeatures>) {
    && reply.WellShaped()
    && (reply.Succeeded? ==>
          && |reply.value.features| > 0
          && (FF.Has(reply.value.features[0].flags, FF.PRESENCE) ==> |reply.value.features[0].params| >= 2))
  }

  /** The camera has at least two GPIOs and one of them can be an input. */
  predicate Capable(reply: Reply<CameraFeatures>)
    requires FeaturesShaped(reply)
  {
    && ApiSuccess(reply.rc)
    && var f := reply.value.features[0];
       && FF.Has(f.flags, FF.PRESENCE)
       && f.params[G.INDEX].maxValue >= 2
       && f.params[G.MODE].maxValue >= G.INPUT
  }

  /** The GPI is GPIO 3 on a camera whose highest index is 3 (PL-X), GPIO 1 otherwise. */
  function GpiIndexFor(reply: Reply<CameraFeatures>): (i: int)
    requires FeaturesShaped(reply) && Capable(reply)
    ensures i == 1 || i == 3
    ensures i == 3 <==> reply.value.features[0].params[G.INDEX].maxValue == 3
  {
    if reply.value.features[0].params[G.INDEX].maxValue == 3 then 3 else 1
  }

  /** The GPO write for GPI value `gpi`: GPIO 2, NORMAL mode, polarity 1 exactly when the GPI is on; the rest as read. */
  function GpoRequest(params: seq<int>, gpi: bool): (req: SetFeatureRequest)
    requires |params| > G.POLARITY
    ensures req.featureId == FID.GPIO && req.flags == FF.MANUAL && req.numParams == |params| == |req.params|
    ensures req.params[G.INDEX] == 2 && req.params[G.MODE] == G.NORMAL
    ensures req.params[G.POLARITY] == if gpi then 1 else 0
    ensures forall i :: G.POLARITY < i < |params| ==> req.params[i] == params[i]
  {
    SetFeatureRequest(FID.GPIO, FF.MANUAL, |params|,
                      params[G.INDEX := 2][G.MODE := G.NORMAL][G.POLARITY := if gpi then 1 else 0])
  }

  /** Every read that did not raise has the shape of a `getFeature` result. */
  predicate ReadsShaped(gpiReads: seq<Outcome<Reply<Feature>>>) {
    forall k :: 0 <= k < |gpiReads| ==> gpiReads[k].Normal? ==> gpiReads[k].value.WellShaped()
  }

  /**
   * The polling loop (lines 113-153) given the outcomes `gpiReads` of its successive GPI reads,
   * before the key press that ends it, and the library's answer `native` to each GPO write:
   * the sample's result and the GPO writes it makes, in order.
   */
  function Poll(gpiReads: seq<Outcome<Reply<Feature>>>, k: nat, lastGpi: bool, native: SetFeatureRequest -> int)
    : (e: (Outcome<int>, seq<SetFeatureRequest>))
    requires ReadsShaped(gpiReads) && k <= |gpiReads|
    ensures |e.1| <= |gpiReads| - k
    ensures e.0.Normal? ==> e.0.value == 0 || e.0.value == 1
    decreases |gpiReads| - k
  {
    if k == |gpiReads| then (Normal(0), [])
    else
      assert gpiReads[k].Normal? ==> gpiReads[k].value.WellShaped();
      match gpiReads[k]
      case Raised(x) => (Raised(x), [])
      case Normal(ret) =>
        if !ApiSuccess(ret.rc) then (Normal(1), [])
        else
          var params := ret.value.params;
          if |params| <= G.STATUS then (Raised(IndexError), [])
          else
            var currentGpi := params[G.STATUS] != 0;
            if currentGpi != lastGpi then
              var req := GpoRequest(params, currentGpi);
              if !ApiSuccess(native(req)) then (Normal(1), [req])
              else
                var rest := Poll(gpiReads, k + 1, currentGpi, native);
                (rest.0, [req] + rest.1)
            else Poll(gpiReads, k + 1, lastGpi, native)
  }

  /** Write number `i` of a run that started from `lastGpi`: GPIO 2, NORMAL mode, polarity alternating from `!lastGpi`. */
  predicate NthGpoWrite(w: SetFeatureRequest, i: int, lastGpi: bool) {
    && w.featureId == FID.GPIO && w.flags == FF.MANUAL
    && |w.params| > G.POLARITY
    && w.params[G.INDEX] == 2 && w.params[G.MODE] == G.NORMAL
    && w.params[G.POLARITY] == if (i % 2 == 0) == lastGpi then 0 else 1
  }

  /**
   * The GPO follows the GPI: its writes alternate in polarity, the first one setting the
   * opposite of `lastGpi`, and every write goes to GPIO 2 in NORMAL mode.
   */
  lemma {:induction false} PollWritesAlternate(gpiReads: seq<Outcome<Reply<Feature>>>, k: nat, lastGpi: bool,
                                               native: SetFeatureRequest -> int)
    requires ReadsShaped(gpiReads) && k <= |gpiReads|
    ensures forall i :: 0 <= i < |Poll(gpiReads, k, lastGpi, native).1| ==>
      NthGpoWrite(Poll(gpiReads, k, lastGpi, native).1[i], i, lastGpi)
    decreases |gpiReads| - k
  {
    if k < |gpiReads| {
      assert gpiReads[k].Normal? ==> gpiReads[k].value.WellShaped();
      if gpiReads[k].Normal? && ApiSuccess(gpiReads[k].value.rc) && |gpiReads[k].value.value.params| > G.STATUS {
        var params := gpiReads[k].value.value.params;
        var currentGpi := params[G.STATUS] != 0;
        if currentGpi != lastGpi && ApiSuccess(native(GpoRequest(params, currentGpi))) {
          PollWritesAlternate(gpiReads, k + 1, currentGpi, native);
          var rest := Poll(gpiReads, k + 1, currentGpi, native).1;
          var writes := Poll(gpiReads, k, lastGpi, native).1;
          assert writes == [GpoRequest(params, currentGpi)] + rest;
          forall i | 0 <= i < |writes| ensures NthGpoWrite(writes[i], i, lastGpi) {
            if i > 0 {
              assert writes[i] == rest[i - 1];
              assert NthGpoWrite(rest[i - 1], i - 1, currentGpi);
            }
          }
        } else if currentGpi == lastGpi {
          PollWritesAlternate(gpiReads, k + 1, lastGpi, native);
        }
      }
    }
  }

  /** A GPI that never changes from `lastGpi` is never copied to the GPO. */
  lemma {:induction false} SteadyGpiWritesNothing(gpiReads: seq<Outcome<Reply<Feature>>>, k: nat, lastGpi: bool,
                                                  native: SetFeatureRequest -> int)
    requires ReadsShaped(gpiReads) && k <= |gpiReads|
    requires forall m :: k <= m < |gpiReads| ==>
      && gpiReads[m].Normal? && ApiSuccess(gpiReads[m].value.rc)
      && |gpiReads[m].value.value.params| > G.STATUS && (gpiReads[m].value.value.params[G.STATUS] != 0) == lastGpi
    ensures Poll(gpiReads, k, lastGpi, native) == (Normal(0), [])
    decreases |gpiReads| - k
  {
    if k < |gpiReads| {
      SteadyGpiWritesNothing(gpiReads, k + 1, lastGpi, native);
    }
  }

  /** The sample's global state: `gpiIndex`, which `supports_gpio` sets and the others read. */
  class GpioState {
    var gpiIndex: int

    /** The `__main__` block sets `gpiIndex` to 0 before calling `main`. */
    constructor()
      ensures gpiIndex == 0
    {
      gpiIndex := 0;
    }

    /** `supports_gpio(hCamera)` on the reply of `getCameraFeatures(hCamera, GPIO)`. */
    method SupportsGpio(reply: Reply<CameraFeatures>) returns (r: bool)
      requires FeaturesShaped(reply)
      modifies this
      ensures r <==> Capable(reply)
      ensures r ==> gpiIndex == GpiIndexFor(reply)
      ensures !r ==> gpiIndex == old(gpiIndex)
    {
      if !ApiSuccess(reply.rc) {
        return false;
      }
      var gpioFeatureInfo := reply.value;
      if gpioFeatureInfo.features[0].flags & FF.PRESENCE == 0 {
        return false;
      }
      if gpioFeatureInfo.features[0].params[0].maxValue < 2 {
        return false;
      }
      if gpioFeatureInfo.features[0].params[1].maxValue < G.INPUT {
        return false;
      }
      if gpioFeatureInfo.features[0].params[0].maxValue == 3 {
        gpiIndex := 3;
      } else {
        gpiIndex := 1;
      }
      return true;
    }

    /** `setup_gpios(hCamera)`: the GPI as INPUT, then GPIO 2 as a NORMAL output; the second only if the first succeeds. */
    method SetupGpios(native: SetFeatureRequest -> int) returns (rc: int, sent: seq<SetFeatureRequest>)
      ensures var gpi := SetFeatureRequest(FID.GPIO, FF.MANUAL, G.NUM_PARAMS, [gpiIndex, G.INPUT, 0, 0, 0, 0]);
        var gpo := SetFeatureRequest(FID.GPIO, FF.MANUAL, G.NUM_PARAMS, [2, G.NORMAL, 0, 0, 0, 0]);
        && (!ApiSuccess(native(gpi)) ==> sent == [gpi] && rc == native(gpi))
        && (ApiSuccess(native(gpi)) ==> sent == [gpi, gpo] && rc == native(gpo))
    {
      var gpioParams: seq<int> := [0, 0, 0, 0, 0, 0];
      gpioParams := gpioParams[G.INDEX := gpiIndex][G.MODE := G.INPUT][G.POLARITY := 0];
      assert gpioParams == [gpiIndex, G.INPUT, 0, 0, 0, 0];
      var req: SetFeatureRequest;
      rc, req := SetFeature(FID.GPIO, FF.MANUAL, gpioParams, native);
      assert req.params == gpioParams;
      sent := [req];
      if !ApiSuccess(rc) {
        return;
      }
      gpioParams := gpioParams[G.INDEX := 2][G.MODE := G.NORMAL][G.POLARITY := 0];
      assert gpioParams == [2, G.NORMAL, 0, 0, 0, 0];
      rc, req := SetFeature(FID.GPIO, FF.MANUAL, gpioParams, native);
      assert req.params == gpioParams;
      sent := sent + [req];
    }

    /**
     * `main` after `initialize` succeeds. `reply` answers `getCameraFeatures`, `native` every
     * `setFeature`, and `gpiReads[k]` is the outcome of the k-th GPI read, a `getFeature` of GPIO
     * `gpiIndex`; the key is pressed after the last of them.
     */
    method RunSample(reply: Reply<CameraFeatures>, native: SetFeatureRequest -> int, gpiReads: seq<Outcome<Reply<Feature>>>)
      returns (r: Outcome<int>, writes: seq<SetFeatureRequest>)
      requires FeaturesShaped(reply) && ReadsShaped(gpiReads)
      modifies this
      ensures !Capable(reply) ==> r == Normal(1) && writes == [] && gpiIndex == old(gpiIndex)
      ensures Capable(reply) ==> gpiIndex == GpiIndexFor(reply)
      ensures Capable(reply) ==>
        var gpi := SetFeatureRequest(FID.GPIO, FF.MANUAL, G.NUM_PARAMS, [gpiIndex, G.INPUT, 0, 0, 0, 0]);
        var gpo := SetFeatureRequest(FID.GPIO, FF.MANUAL, G.NUM_PARAMS, [2, G.NORMAL, 0, 0, 0, 0]);
        && (!ApiSuccess(native(gpi)) || !ApiSuccess(native(gpo)) ==> r == Normal(1) && writes == [])
        && (ApiSuccess(native(gpi)) && ApiSuccess(native(gpo)) ==> (r, writes) == Poll(gpiReads, 0, GPIO_ON, native))
    {
      var supported := SupportsGpio(reply);
      if !supported {
        return Normal(1), [];
      }
      var rc, _ := SetupGpios(native);
      if !ApiSuccess(rc) {
        return Normal(1), [];
      }
      r, writes := PollGpi(native, gpiReads);
    }

    /** Lines 131-135: the GPO write that copies GPI value `gpi`; `params` is what the read returned. */
    method WriteGpo(params: seq<int>, gpi: bool, native: SetFeatureRequest -> int)
      returns (rc: int, sent: SetFeatureRequest, newParams: seq<int>)
      requires |params| > G.STATUS
      ensures sent == GpoRequest(params, gpi) && rc == native(sent)
      ensures newParams == sent.params
    {
      newParams := params[G.INDEX := 2][G.MODE := G.NORMAL][G.POLARITY := if gpi then 1 else 0];
      rc, sent := SetFeature(FID.GPIO, FF.MANUAL, newParams, native);
      assert sent.params == newParams;
    }

    /**
     * `main`'s polling loop (lines 113-153): read the GPI, and on every change copy it to the
     * GPO; each read's outcome is the next of `gpiReads`.
     */
    method PollGpi(native: SetFeatureRequest -> int, gpiReads: seq<Outcome<Reply<Feature>>>)
      returns (r: Outcome<int>, writes: seq<SetFeatureRequest>)
      requires ReadsShaped(gpiReads)
      ensures (r, writes) == Poll(gpiReads, 0, GPIO_ON, native)
    {
      var gpioParams: seq<int> := [0, 0, 0, 0, 0, 0];
      var lastGpi := GPIO_ON;
      writes := [];
      var k := 0;
      assert writes + Poll(gpiReads, k, lastGpi, native).1 == Poll(gpiReads, k, lastGpi, native).1;
      while k < |gpiReads|
        invariant k <= |gpiReads|
        invariant |gpioParams| > G.STATUS
        invariant Poll(gpiReads, 0, GPIO_ON, native) ==
          (Poll(gpiReads, k, lastGpi, native).0, writes + Poll(gpiReads, k, lastGpi, native).1)
      {
        gpioParams := gpioParams[G.INDEX := gpiIndex];
        var ret := gpiReads[k];
        assert ret.Normal? ==> ret.value.WellShaped();
        k := k + 1;
        if ret.Raised? {
          assert writes + [] == writes;
          return Raised(ret.exc), writes;
        }
        if !ApiSuccess(ret.value.rc) {
          assert writes + [] == writes;
          return Normal(1), writes;
        }
        gpioParams := ret.value.value.params;
        if |gpioParams| <= G.STATUS {
          assert writes + [] == writes;
          return Raised(IndexError), writes;
        }
        var currentGpi := if 0 == gpioParams[G.STATUS] then GPIO_OFF else GPIO_ON;
        if currentGpi != lastGpi {
          var setRc, sent;
          setRc, sent, gpioParams := WriteGpo(gpioParams, currentGpi, native);
          assert (writes + [sent]) + Poll(gpiReads, k, currentGpi, native).1
              == writes + ([sent] + Poll(gpiReads, k, currentGpi, native).1);
          writes := writes + [sent];
          if !ApiSuccess(setRc) {
            assert writes + [] == writes;
            return Normal(1), writes;
          }
          lastGpi := currentGpi;
        }
      }
      assert writes + [] == writes;
      r := Normal(0);
    }
  }
}

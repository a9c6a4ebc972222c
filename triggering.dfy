// samples/Linux/triggering.py: `enable_feature`, `disable_triggering` and `set_triggering`.
// Flags are the 32-bit word the library receives: Python computes `~MOD_BITS | MANUAL`
// as the negative integer -29, which ctypes passes as a c_uint.

module Triggering {
  import opened Outcomes
  import opened PxLApi
  import FF = FeatureFlags
  import FID = FeatureId
  import T = Trigger

  /** `enable_feature(flags, enable)`: the mode bits say MANUAL or OFF; everything else is set. */
  function EnableFeature(flags: bv32, enable: bool): (r: bv32)
    ensures enable ==> r & FF.MANUAL != 0 && r & (FF.AUTO | FF.ONEPUSH | FF.OFF) == 0
    ensures !enable ==> r & FF.OFF != 0 && r & (FF.MANUAL | FF.AUTO | FF.ONEPUSH) == 0
    ensures r | FF.MOD_BITS == 0xFFFF_FFFF
  {
    if enable then !FF.MOD_BITS | FF.MANUAL else !FF.MOD_BITS | FF.OFF
  }

  /** The result ignores the flags passed in. */
  lemma EnableFeatureIgnoresFlags(f: bv32, g: bv32, enable: bool)
    ensures EnableFeature(f, enable) == EnableFeature(g, enable)
  {
  }

  /** The words are Python's -29 and -15 as a 32-bit unsigned value, and both keep PRESENCE. */
  lemma EnableFeatureWords(f: bv32)
    ensures EnableFeature(f, true) as int == (-29) % 0x1_0000_0000
    ensures EnableFeature(f, false) as int == (-15) % 0x1_0000_0000
    ensures FF.Has(EnableFeature(f, true), FF.PRESENCE) && FF.Has(EnableFeature(f, false), FF.PRESENCE)
  {
  }

  /**
   * `disable_triggering(hCamera)`: read the trigger settings, then write the same five
   * parameters back with the OFF flags. A failed step fails the sample's assertions.
   */
  method DisableTriggering(current: Reply<Feature>, native: SetFeatureRequest -> int)
    returns (r: Outcome<()>, sent: Option<SetFeatureRequest>)
    requires current.WellShaped()
    ensures !ApiSuccess(current.rc) || |current.value.params| != 5 ==> r == Raised(AssertionError) && sent == None
    ensures ApiSuccess(current.rc) && |current.value.params| == 5 ==>
      && sent == Some(SetFeatureRequest(FID.TRIGGER, EnableFeature(current.value.flags, false), 5, current.value.params))
      && (r == Normal(()) <==> ApiSuccess(native(sent.value)))
      && (r.Raised? ==> r.exc == AssertionError)
  {
    if !ApiSuccess(current.rc) || 5 != |current.value.params| {
      return Raised(AssertionError), None;
    }
    var flags := EnableFeature(current.value.flags, false);
    var rc, req := SetFeature(FID.TRIGGER, flags, current.value.params, native);
    assert req.params == current.value.params;
    sent := Some(req);
    if !ApiSuccess(rc) {
      return Raised(AssertionError), sent;
    }
    r := Normal(());
  }

  /**
   * `set_triggering(hCamera, mode, triggerType, polarity, delay, param)`: read the trigger
   * settings, overwrite all five parameters in place, and write them with the MANUAL flags.
   */
  method SetTriggering(mode: int, triggerType: int, polarity: int, delay: int, param: int,
                       current: Reply<Feature>, native: SetFeatureRequest -> int)
    returns (r: Outcome<()>, sent: Option<SetFeatureRequest>)
    requires current.WellShaped()
    ensures !ApiSuccess(current.rc) || |current.value.params| != 5 ==> r == Raised(AssertionError) && sent == None
    ensures ApiSuccess(current.rc) && |current.value.params| == 5 ==>
      && sent == Some(SetFeatureRequest(FID.TRIGGER, EnableFeature(current.value.flags, true), 5,
                                        [mode, triggerType, polarity, delay, param]))
      && (r == Normal(()) <==> ApiSuccess(native(sent.value)))
      && (r.Raised? ==> r.exc == AssertionError)
  {
    if !ApiSuccess(current.rc) || 5 != |current.value.params| {
      return Raised(AssertionError), None;
    }
    var flags := EnableFeature(current.value.flags, true);
    var params := new int[5](i requires 0 <= i < 5 => current.value.params[i]);
    params[T.MODE] := mode;
    params[T.TYPE] := triggerType;
    params[T.POLARITY] := polarity;
    params[T.DELAY] := delay;
    params[T.PARAMETER] := param;
    assert params[..] == [mode, triggerType, polarity, delay, param];
    var rc, req := SetFeature(FID.TRIGGER, flags, params[..], native);
    assert req.params == [mode, triggerType, polarity, delay, param];
    sent := Some(req);
    if !ApiSuccess(rc) {
      return Raised(AssertionError), sent;
    }
    r := Normal(());
  }
}

// samples/Windows/getFeature.py: how `main` classifies the TRIGGER feature's flags and
// parameters (state, trigger type and mode description) before printing them.

module GetFeatureSample {
  import opened Outcomes
  import FF = FeatureFlags
  import T = Trigger
  import Triggering

  datatype TriggerState = Disabled | Continuous | OneTime | Manual
  datatype TriggerKind = Hardware | Software | Action
  datatype Description =
    | SingleFrameCurrentExposure   // mode 0
    | SingleFrameTriggerExposure   // mode 1
    | UntilStreamStop              // mode 14 with NUMBER 0
    | Frames(n: int)               // mode 14 with another NUMBER
    | GenericMode(mode: int)       // any other mode

  datatype TriggerReport = NotSupported | Report(state: TriggerState, kind: TriggerKind, description: Description)

  /** The state line: OFF takes precedence over AUTO, AUTO over ONEPUSH; otherwise MANUAL. */
  function StateOf(flags: bv32): (s: TriggerState)
    ensures s == Disabled <==> FF.Has(flags, FF.OFF)
    ensures s == Continuous <==> !FF.Has(flags, FF.OFF) && FF.Has(flags, FF.AUTO)
    ensures s == OneTime <==> !FF.Has(flags, FF.OFF) && !FF.Has(flags, FF.AUTO) && FF.Has(flags, FF.ONEPUSH)
    ensures s == Manual <==> !FF.Has(flags, FF.OFF) && !FF.Has(flags, FF.AUTO) && !FF.Has(flags, FF.ONEPUSH)
  {
    if flags & FF.OFF != 0 then Disabled
    else if flags & FF.AUTO != 0 then Continuous
    else if flags & FF.ONEPUSH != 0 then OneTime
    else Manual
  }

  /** The type line: HARDWARE and SOFTWARE by value, ACTION for everything else. */
  function KindOf(triggerType: int): (k: TriggerKind)
    ensures k == Hardware <==> triggerType == T.HARDWARE
    ensures k == Software <==> triggerType == T.SOFTWARE
    ensures k == Action <==> triggerType != T.HARDWARE && triggerType != T.SOFTWARE
  {
    if triggerType == T.HARDWARE then Hardware
    else if triggerType == T.SOFTWARE then Software
    else Action
  }

  /** A free-running trigger is reported as ACTION. */
  lemma FreeRunningReportedAsAction()
    ensures KindOf(T.FREE_RUNNING) == Action && KindOf(T.ACTION) == Action
  {
  }

  /** The description line, read from MODE and, in mode 14, NUMBER. */
  function DescriptionOf(params: seq<int>): (r: Outcome<Description>)
    requires |params| > T.MODE
    ensures r.Raised? <==> params[T.MODE] == T.MODE_14 && |params| <= T.NUMBER
    ensures r.Raised? ==> r.exc == IndexError
    ensures r == Normal(SingleFrameCurrentExposure) <==> params[T.MODE] == T.MODE_0
    ensures r == Normal(SingleFrameTriggerExposure) <==> params[T.MODE] == T.MODE_1
    ensures r == Normal(UntilStreamStop) <==> params[T.MODE] == T.MODE_14 && |params| > T.NUMBER && params[T.NUMBER] == 0
    ensures r.Normal? && r.value.Frames? <==> params[T.MODE] == T.MODE_14 && |params| > T.NUMBER && params[T.NUMBER] != 0
    ensures r.Normal? && r.value.Frames? ==> r.value.n == params[T.NUMBER]
    ensures r.Normal? && r.value.GenericMode? <==>
      params[T.MODE] != T.MODE_0 && params[T.MODE] != T.MODE_1 && params[T.MODE] != T.MODE_14
    ensures r.Normal? && r.value.GenericMode? ==> r.value.mode == params[T.MODE]
  {
    var mode := params[T.MODE];
    if mode == T.MODE_0 then Normal(SingleFrameCurrentExposure)
    else if mode == T.MODE_1 then Normal(SingleFrameTriggerExposure)
    else if mode == T.MODE_14 then
      if |params| <= T.NUMBER then Raised(IndexError)
      else if params[T.NUMBER] == 0 then Normal(UntilStreamStop)
      else Normal(Frames(params[T.NUMBER]))
    else Normal(GenericMode(mode))
  }

  /**
   * Lines 51-74 of `main`: a feature without PRESENCE is only reported as not supported;
   * otherwise `params[1]` and `params[0]` are read, so a short list raises IndexError.
   */
  function Classify(flags: bv32, params: seq<int>): (r: Outcome<TriggerReport>)
    ensures !FF.Has(flags, FF.PRESENCE) ==> r == Normal(NotSupported)
    ensures FF.Has(flags, FF.PRESENCE) && |params| <= T.TYPE ==> r == Raised(IndexError)
    ensures r.Normal? && r.value.Report? ==>
      && FF.Has(flags, FF.PRESENCE) && |params| > T.TYPE
      && r.value.state == StateOf(flags)
      && r.value.kind == KindOf(params[T.TYPE])
      && DescriptionOf(params) == Normal(r.value.description)
    ensures FF.Has(flags, FF.PRESENCE) && |params| > T.TYPE ==>
      (r.Raised? <==> DescriptionOf(params).Raised?)
    ensures FF.Has(flags, FF.PRESENCE) && |params| > T.TYPE && DescriptionOf(params).Normal? ==>
      r == Normal(Report(StateOf(flags), KindOf(params[T.TYPE]), DescriptionOf(params).value))
    ensures r == Normal(NotSupported) <==> !FF.Has(flags, FF.PRESENCE)
  {
    if flags & FF.PRESENCE == 0 then Normal(NotSupported)
    else if |params| <= T.TYPE then Raised(IndexError)
    else
      match DescriptionOf(params)
      case Raised(e) => Raised(e)
      case Normal(d) => Normal(Report(StateOf(flags), KindOf(params[T.TYPE]), d))
  }

  /**
   * What triggering.py writes is what this sample reads back: enabled triggering is
   * MANUAL, disabled triggering is DISABLED, and both are supported.
   */
  lemma ClassifyEnabledFlags(f: bv32, params: seq<int>)
    requires |params| == T.NUM_PARAMS
    ensures Classify(Triggering.EnableFeature(f, true), params).Normal? &&
      Classify(Triggering.EnableFeature(f, true), params).value.Report? &&
      Classify(Triggering.EnableFeature(f, true), params).value.state == Manual
    ensures Classify(Triggering.EnableFeature(f, false), params).Normal? &&
      Classify(Triggering.EnableFeature(f, false), params).value.Report? &&
      Classify(Triggering.EnableFeature(f, false), params).value.state == Disabled
  {
    Triggering.EnableFeatureWords(f);
  }
}

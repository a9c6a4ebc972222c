// samples/Linux/getCameraFeature.py: `decode_feature_flags`, `decode_trigger_type`,
// `decode_polarity` and the search in `print_feature_parameter_info2`. A decoder's printed
// lines are modelled by the names it reports, in the order it prints them.

module GetCameraFeature {
  import opened Outcomes
  import opened PxLApi
  import FF = FeatureFlags
  import T = Trigger

  // ---------------------------------------------------------------------------
  // decode_feature_flags

  /** The flags `decode_feature_flags` tests, in the order it tests them. */
  const DecodedFlags: seq<(bv32, string)> := [
    (FF.PRESENCE, "PRESENCE"), (FF.READ_ONLY, "READ_ONLY"), (FF.DESC_SUPPORTED, "DESC_SUPPORTED"),
    (FF.MANUAL, "MANUAL"), (FF.AUTO, "AUTO"), (FF.ONEPUSH, "ONEPUSH"), (FF.OFF, "OFF")]

  /** The names of the entries of `table` whose bit is set in `flags`, in table order. */
  function SetNames<N>(table: seq<(bv32, N)>, flags: bv32): (names: seq<N>)
    ensures |names| <= |table|
  {
    if |table| == 0 then []
    else (if FF.Has(flags, table[0].0) then [table[0].1] else []) + SetNames(table[1..], flags)
  }

  /** A name is reported exactly when its entry's bit is set (for a table with distinct names). */
  lemma {:induction false} SetNamesMembers<N>(table: seq<(bv32, N)>, flags: bv32, k: nat)
    requires k < |table|
    requires forall i, j :: 0 <= i < j < |table| ==> table[i].1 != table[j].1
    ensures table[k].1 in SetNames(table, flags) <==> FF.Has(flags, table[k].0)
  {
    if k > 0 {
      SetNamesMembers(table[1..], flags, k - 1);
      assert table[1..][k - 1] == table[k];
    } else {
      NotInSetNames(table[1..], flags, table[0].1);
    }
  }

  lemma {:induction false} NotInSetNames<N>(table: seq<(bv32, N)>, flags: bv32, name: N)
    requires forall i :: 0 <= i < |table| ==> table[i].1 != name
    ensures name !in SetNames(table, flags)
  {
    if |table| > 0 {
      NotInSetNames(table[1..], flags, name);
    }
  }

  /**
   * `decode_feature_flags(flags)`: one line per set flag among the seven, in the order the
   * function tests them; written as a filter over that table.
   */
  function DecodeFeatureFlags(flags: bv32): (names: seq<string>)
    ensures |names| <= |DecodedFlags|
  {
    SetNames(DecodedFlags, flags)
  }

  /** Each of the seven flags is reported exactly when it is set. */
  lemma DecodeFeatureFlagsReports(flags: bv32, k: nat)
    requires k < |DecodedFlags|
    ensures DecodedFlags[k].1 in DecodeFeatureFlags(flags) <==> FF.Has(flags, DecodedFlags[k].0)
  {
    SetNamesMembers(DecodedFlags, flags, k);
  }

  // ---------------------------------------------------------------------------
  // decode_trigger_type and decode_polarity

  const UNKNOWN_TRIGGER_TYPE: string := "Unknown trigger type"
  const UNKNOWN_POLARITY: string := "Unknown polarity"

  /** `decode_trigger_type(triggerType)`: only the three table keys have names. */
  function DecodeTriggerType(triggerType: int): (s: string)
    ensures s != UNKNOWN_TRIGGER_TYPE <==> triggerType in {T.FREE_RUNNING, T.SOFTWARE, T.HARDWARE}
  {
    if triggerType == T.FREE_RUNNING then "trigger type FREE_RUNNING"
    else if triggerType == T.SOFTWARE then "trigger type SOFTWARE"
    else if triggerType == T.HARDWARE then "trigger type HARDWARE"
    else UNKNOWN_TRIGGER_TYPE
  }

  /** ACTION is not in the table; the three named types have different names. */
  lemma DecodeTriggerTypeNames()
    ensures DecodeTriggerType(T.ACTION) == UNKNOWN_TRIGGER_TYPE
    ensures DecodeTriggerType(T.FREE_RUNNING) != DecodeTriggerType(T.SOFTWARE)
    ensures DecodeTriggerType(T.FREE_RUNNING) != DecodeTriggerType(T.HARDWARE)
    ensures DecodeTriggerType(T.SOFTWARE) != DecodeTriggerType(T.HARDWARE)
  {
    assert DecodeTriggerType(T.FREE_RUNNING)[13] != DecodeTriggerType(T.SOFTWARE)[13];
    assert DecodeTriggerType(T.FREE_RUNNING)[13] != DecodeTriggerType(T.HARDWARE)[13];
    assert DecodeTriggerType(T.SOFTWARE)[13] != DecodeTriggerType(T.HARDWARE)[13];
  }

  /** `decode_polarity(polarity)`: 0 is negative, 1 positive, anything else unknown. */
  function DecodePolarity(polarity: int): (s: string)
    ensures s != UNKNOWN_POLARITY <==> polarity == T.NEGATIVE || polarity == T.POSITIVE
    ensures polarity == T.NEGATIVE ==> s == "negative polarity"
    ensures polarity == T.POSITIVE ==> s == "positive polarity"
  {
    if polarity == 0 then "negative polarity"
    else if polarity == 1 then "positive polarity"
    else UNKNOWN_POLARITY
  }

  // ---------------------------------------------------------------------------
  // The search in print_feature_parameter_info2

  /** What the search leads to: the "unable to find" error, or the array index printed. */
  datatype SearchEnd = NotFound | PrintAt(index: int)

  /** The first position in `features` holding `featureId`, if any. */
  function FirstWithId(features: seq<CameraFeature>, featureId: int): (r: Option<nat>)
    ensures r.Some? ==> r.value < |features| && features[r.value].featureId == featureId
    ensures r.Some? ==> forall j :: 0 <= j < r.value ==> features[j].featureId != featureId
    ensures r.None? ==> forall j :: 0 <= j < |features| ==> features[j].featureId != featureId
  {
    if |features| == 0 then None
    else if features[0].featureId == featureId then Some(0)
    else match FirstWithId(features[1..], featureId)
      case None => None
      case Some(j) => Some(j + 1)
  }

  /**
   * `print_feature_parameter_info2` after a successful `getCameraFeatures(ALL)`, as written:
   * the search stops at the first match but records the feature id, not the position.
   */
  method FindFeatureAsWritten(features: seq<CameraFeature>, featureId: int) returns (r: Outcome<SearchEnd>)
    ensures |features| <= 1 ==> r == Raised(AssertionError)
    ensures |features| > 1 && FirstWithId(features, featureId).None? ==> r == Normal(NotFound)
    ensures |features| > 1 && FirstWithId(features, featureId).Some? ==>
      r == Normal(if featureId == -1 then NotFound else PrintAt(featureId))
  {
    if !(1 < |features|) {
      return Raised(AssertionError);
    }
    var featureIndex := -1;
    for i := 0 to |features|
      invariant forall j :: 0 <= j < i ==> features[j].featureId != featureId
      invariant featureIndex == -1
    {
      if featureId == features[i].featureId {
        featureIndex := features[i].featureId;
        assert FirstWithId(features, featureId) == Some(i);
        break;
      }
    }
    if -1 == featureIndex {
      return Normal(NotFound);
    }
    r := Normal(PrintAt(featureIndex));
  }

  /** The search recording the position, as the comment before the function says it must. */
  method FindFeature(features: seq<CameraFeature>, featureId: int) returns (r: Outcome<SearchEnd>)
    ensures |features| <= 1 ==> r == Raised(AssertionError)
    ensures |features| > 1 && FirstWithId(features, featureId).None? ==> r == Normal(NotFound)
    ensures |features| > 1 && FirstWithId(features, featureId).Some? ==>
      r == Normal(PrintAt(FirstWithId(features, featureId).value))
    ensures r.Normal? && r.value.PrintAt? ==>
      0 <= r.value.index < |features| && features[r.value.index].featureId == featureId
  {
    if !(1 < |features|) {
      return Raised(AssertionError);
    }
    var featureIndex := -1;
    for i := 0 to |features|
      invariant forall j :: 0 <= j < i ==> features[j].featureId != featureId
      invariant featureIndex == -1
    {
      if featureId == features[i].featureId {
        featureIndex := i;
        assert FirstWithId(features, featureId) == Some(i);
        break;
      }
    }
    if -1 == featureIndex {
      return Normal(NotFound);
    }
    r := Normal(PrintAt(featureIndex));
  }

  /** Two features, SHUTTER at position 0 and TRIGGER at position 1: the list is not indexed by id. */
  const ShutterAndTrigger: seq<CameraFeature> := [CameraFeature(7, FF.PRESENCE, []), CameraFeature(12, FF.PRESENCE, [])]

  /**
   * Looking up TRIGGER (id 12) finds it at position 1; the as-written search prints entry
   * 12 of a two-entry array.
   */
  lemma TriggerIsNotAtItsId()
    ensures FirstWithId(ShutterAndTrigger, 12) == Some(1)
    ensures !(12 < |ShutterAndTrigger|)
  {
    assert ShutterAndTrigger[0].featureId != 12;
    assert ShutterAndTrigger[1].featureId == 12;
  }
}

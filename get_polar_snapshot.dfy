// samples/Windows/getPolarSnapshot.py: `set_polar_pixel_format`, the weight selection and
// gates of `get_polar_snapshot`, `set_polar_weightings`, `determine_raw_image_size` and the
// per-channel loop of `main`. Its `get_raw_image` and `save_image_to_file` are copies of
// getSnapshot.py's and are modelled there.

module GetPolarSnapshot {
  import opened Outcomes
  import opened PxLApi
  import FF = FeatureFlags
  import FID = FeatureId
  import FP = FrameParams
  import PF = PixelFormat
  import PW = PolarWeightings
  import GS = GetSnapshot
  import SS = StreamState

  const SUCCESS: int := GS.SUCCESS
  const FAILURE: int := GS.FAILURE

  /** `set_polar_pixel_format(hCamera)`: request POLAR4_12 manually; SUCCESS exactly when that succeeds. */
  method SetPolarPixelFormat(hCamera: int, native: SetFeatureRequest -> int)
    returns (r: Outcome<int>, sent: Option<SetFeatureRequest>)
    ensures hCamera == 0 ==> r == Raised(AssertionError) && sent == None
    ensures hCamera != 0 ==>
      && sent == Some(SetFeatureRequest(FID.PIXEL_FORMAT, FF.MANUAL, 1, [PF.POLAR4_12]))
      && (r == Normal(SUCCESS) <==> ApiSuccess(native(sent.value)))
      && (r == Normal(FAILURE) <==> !ApiSuccess(native(sent.value)))
  {
    if hCamera == 0 {
      return Raised(AssertionError), None;
    }
    var rc, req := SetFeature(FID.PIXEL_FORMAT, FF.MANUAL, [PF.POLAR4_12], native);
    assert req.params == [PF.POLAR4_12];
    sent := Some(req);
    if !ApiSuccess(rc) {
      return Normal(FAILURE), sent;
    }
    r := Normal(SUCCESS);
  }

  /**
   * The weights of the 0, 45, 90 and 135 degree channels for a snapshot of `polarChannel`:
   * 100 for that channel and 0 for the others, or 100 for all four past the last channel.
   */
  function PolarWeights(polarChannel: int): (w: seq<int>)
    ensures |w| == 4
    ensures 0 <= polarChannel < 4 ==> forall i :: 0 <= i < 4 ==> w[i] == if i == polarChannel then 100 else 0
    ensures !(0 <= polarChannel < 4) ==> forall i :: 0 <= i < 4 ==> w[i] == 100
  {
    if PW.WEIGHTINGS_0_DEG == polarChannel then [100, 0, 0, 0]
    else if PW.WEIGHTINGS_45_DEG == polarChannel then [0, 100, 0, 0]
    else if PW.WEIGHTINGS_90_DEG == polarChannel then [0, 0, 100, 0]
    else if PW.WEIGHTINGS_135_DEG == polarChannel then [0, 0, 0, 100]
    else [100, 100, 100, 100]
  }

  /** Every selection passes `set_polar_weightings`' assertions, and the four channels pick distinct weightings. */
  lemma PolarWeightsValid(c: int, c': int)
    ensures forall i :: 0 <= i < 4 ==> PolarWeights(c)[i] >= 0
    ensures 0 <= c < 4 && 0 <= c' < 4 && c != c' ==> PolarWeights(c) != PolarWeights(c')
  {
    if 0 <= c < 4 && 0 <= c' < 4 && c != c' {
      assert PolarWeights(c)[c] != PolarWeights(c')[c];
    }
  }

  /** `set_polar_weightings(hCamera, w0, w45, w90, w135)`: SUCCESS exactly when `setFeature` succeeds. */
  method SetPolarWeightings(hCamera: int, weights: seq<int>, native: SetFeatureRequest -> int)
    returns (r: Outcome<int>, sent: Option<SetFeatureRequest>)
    requires |weights| == 4
    ensures (hCamera == 0 || exists i :: 0 <= i < 4 && weights[i] < 0) ==> r == Raised(AssertionError) && sent == None
    ensures hCamera != 0 && (forall i :: 0 <= i < 4 ==> weights[i] >= 0) ==>
      && sent == Some(SetFeatureRequest(FID.POLAR_WEIGHTINGS, FF.MANUAL, 4, weights))
      && (r == Normal(SUCCESS) <==> ApiSuccess(native(sent.value)))
      && (r == Normal(FAILURE) <==> !ApiSuccess(native(sent.value)))
  {
    if hCamera == 0 || weights[0] < 0 || weights[1] < 0 || weights[2] < 0 || weights[3] < 0 {
      return Raised(AssertionError), None;
    }
    var rc, req := SetFeature(FID.POLAR_WEIGHTINGS, FF.MANUAL, weights, native);
    assert req.params == weights;
    sent := Some(req);
    if PxLApi.ApiSuccess(rc) {
      return Normal(SUCCESS), sent;
    }
    r := Normal(FAILURE);
  }

  /**
   * `determine_raw_image_size(hCamera)`: 0 when the ROI or pixel-format query fails,
   * otherwise `int(w * h * bytesPerPixel)`; a polar camera has no pixel addressing.
   */
  function DetermineRawImageSize(roi: Reply<Feature>, format: Reply<Feature>): (r: Outcome<int>)
    requires roi.WellShaped() && format.WellShaped()
    ensures !ApiSuccess(roi.rc) ==> r == Normal(0)
    ensures r.Normal? && !ApiSuccess(format.rc) ==> r.value == 0
    ensures r.Raised? ==> r.exc == IndexError
    ensures r.Normal? && ApiSuccess(roi.rc) && ApiSuccess(format.rc) ==>
      && |roi.value.params| > FP.ROI_HEIGHT && |format.value.params| > 0
      && r.value == TruncDiv(roi.value.params[FP.ROI_WIDTH] * roi.value.params[FP.ROI_HEIGHT]
                             * BytesPerPixelQuarters(format.value.params[0]), 4)
    ensures ApiSuccess(roi.rc) && |roi.value.params| <= FP.ROI_HEIGHT ==> r == Raised(IndexError)
    ensures ApiSuccess(roi.rc) && |roi.value.params| > FP.ROI_HEIGHT ==>
      && (!ApiSuccess(format.rc) ==> r == Normal(0))
      && (ApiSuccess(format.rc) && |format.value.params| == 0 ==> r == Raised(IndexError))
      && (ApiSuccess(format.rc) && |format.value.params| > 0 ==>
            r == Normal(TruncDiv(roi.value.params[FP.ROI_WIDTH] * roi.value.params[FP.ROI_HEIGHT]
                                 * BytesPerPixelQuarters(format.value.params[0]), 4)))
  {
    if !ApiSuccess(roi.rc) then Normal(0)
    else
      var p := roi.value.params;
      if |p| <= FP.ROI_HEIGHT then Raised(IndexError)
      else if !ApiSuccess(format.rc) then Normal(0)
      else if |format.value.params| == 0 then Raised(IndexError)
      else Normal(TruncDiv(p[FP.ROI_WIDTH] * p[FP.ROI_HEIGHT] * BytesPerPixelQuarters(format.value.params[0]), 4))
  }

  /** When both queries succeed, the size is getSnapshot.py's for a camera without pixel addressing. */
  lemma PolarSizeIsUnaddressedSize(roi: Reply<Feature>, format: Reply<Feature>, rc: int)
    requires roi.WellShaped() && format.WellShaped() && ApiSuccess(roi.rc) && ApiSuccess(format.rc) && rc < 0
    ensures DetermineRawImageSize(roi, format) == GS.DetermineRawImageSize(roi, Failed(rc), format)
  {
  }

  /** A POLAR4_12 frame takes six bytes per pixel. */
  lemma PolarFrameBytes(w: nat, h: nat)
    ensures DetermineRawImageSize(Succeeded(0, Feature(0, [0, 0, w, h])), Succeeded(0, Feature(0, [PF.POLAR4_12])))
            == Normal(6 * w * h)
  {
    assert BytesPerPixelQuarters(PF.POLAR4_12) == 24;
    assert w * h * 24 == (6 * w * h) * 4;
  }

  /**
   * `get_polar_snapshot(hCamera, imageFormat, fileName, polarChannel)`: set the channel's
   * weights, then size, capture, format and save. `setWeights` is the library's reply to
   * the weightings request.
   */
  method GetPolarSnapshot<D>(hCamera: int, imageFormat: int, fileName: Option<string>, polarChannel: int,
                             setWeights: SetFeatureRequest -> int, roi: Reply<Feature>, format: Reply<Feature>,
                             start: int, attempt: nat -> Reply<D>, formatted: D -> Reply<seq<bv8>>, written: nat)
    returns (r: Outcome<int>, calls: seq<GS.Call>)
    requires roi.WellShaped() && format.WellShaped()
    ensures hCamera == 0 || imageFormat < 0 || fileName.None? || polarChannel < 0 ==> r == Raised(AssertionError) && calls == []
    ensures hCamera != 0 && 0 <= imageFormat && fileName.Some? && 0 <= polarChannel ==>
      var weightsRc := setWeights(SetFeatureRequest(FID.POLAR_WEIGHTINGS, FF.MANUAL, 4, PolarWeights(polarChannel)));
      var size := DetermineRawImageSize(roi, format);
      && (!ApiSuccess(weightsRc) ==> r == Normal(FAILURE) && calls == [])
      && (ApiSuccess(weightsRc) && size.Raised? ==> r == Raised(IndexError) && calls == [])
      && (ApiSuccess(weightsRc) && size == Normal(0) ==> r == Normal(FAILURE) && calls == [])
      && (ApiSuccess(weightsRc) && size.Normal? && size.value < 0 ==> r == Raised(ValueError) && calls == [])
      && (ApiSuccess(weightsRc) && size.Normal? && size.value > 0 && !ApiSuccess(start) ==>
            r == Raised(TypeError) && calls == [GS.SetStreamState(SS.START)])
      && (ApiSuccess(weightsRc) && size.Normal? && size.value > 0 && ApiSuccess(start) ==>
            GS.CaptureTrace(attempt, calls) &&
            r == GS.FormatAndSave(GS.Tuple(GS.LastReply(attempt, calls)), formatted, fileName.value, written))
  {
    if hCamera == 0 || imageFormat < 0 || fileName.None? || polarChannel < 0 {
      return Raised(AssertionError), [];
    }
    var weights := PolarWeights(polarChannel);
    PolarWeightsValid(polarChannel, polarChannel);
    var setRet, _ := SetPolarWeightings(hCamera, weights, setWeights);
    if setRet == Normal(FAILURE) {
      return Normal(FAILURE), [];
    }
    var size := DetermineRawImageSize(roi, format);
    if size.Raised? {
      return Raised(size.exc), [];
    }
    r, calls := GS.SnapshotFromSize(hCamera, size.value, fileName.value, start, attempt, formatted, written);
  }

  const FILE_ENDINGS: seq<string> := ["0deg.bmp", "45deg.bmp", "90deg.bmp", "135deg.bmp"]

  /**
   * The capture part of `main`, after the pixel format is set: one snapshot per polar
   * channel, every channel tried whatever the earlier ones returned; the result is that of
   * the last. `snapshot(c, name)` is `get_polar_snapshot`'s result for channel `c`.
   */
  method CaptureEachChannel(fileRoot: string, snapshot: (int, string) -> Outcome<int>)
    returns (r: Outcome<int>, taken: seq<string>)
    ensures |taken| <= 4
    ensures forall c :: 0 <= c < |taken| ==> taken[c] == fileRoot + FILE_ENDINGS[c]
    ensures forall c :: 0 <= c < |taken| - 1 ==> snapshot(c, taken[c]).Normal?
    ensures r.Raised? <==> |taken| > 0 && snapshot(|taken| - 1, taken[|taken| - 1]).Raised?
    ensures r.Raised? ==> r == snapshot(|taken| - 1, taken[|taken| - 1])
    ensures r.Normal? ==>
      && |taken| == 4
      && (r.value == SUCCESS <==> snapshot(3, fileRoot + FILE_ENDINGS[3]) == Normal(SUCCESS))
      && (r.value == SUCCESS || r.value == FAILURE)
  {
    taken := [];
    var retVal := FAILURE;
    for polarChannel := 0 to 4
      invariant |taken| == polarChannel
      invariant forall c :: 0 <= c < polarChannel ==> taken[c] == fileRoot + FILE_ENDINGS[c]
      invariant forall c :: 0 <= c < polarChannel ==> snapshot(c, taken[c]).Normal?
      invariant polarChannel > 0 ==> snapshot(polarChannel - 1, taken[polarChannel - 1]) == Normal(retVal)
    {
      var fileName := fileRoot + FILE_ENDINGS[polarChannel];
      taken := taken + [fileName];
      var shot := snapshot(polarChannel, fileName);
      if shot.Raised? {
        return shot, taken;
      }
      retVal := shot.value;
    }
    if SUCCESS != retVal {
      return Normal(FAILURE), taken;
    }
    r := Normal(SUCCESS);
  }
}

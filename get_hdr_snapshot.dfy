// samples/Linux/getHDRSnapshot.py: `set_hdr_mode`, `determine_raw_image_size`,
// `get_hdr_snapshot` and the loop over the two HDR modes in `main`. Its `get_raw_image`
// and `save_image_to_file` are copies of getSnapshot.py's and are modelled there.

module GetHdrSnapshot {
  import opened Outcomes
  import opened PxLApi
  import FF = FeatureFlags
  import FID = FeatureId
  import FP = FrameParams
  import GainHdr
  import PF = PixelFormat
  import GS = GetSnapshot
  import SS = StreamState
  import GCI = GetCompressedImage

  const SUCCESS: int := GS.SUCCESS
  const FAILURE: int := GS.FAILURE

  /** The flags and the one parameter value that select an HDR mode. */
  function HdrSetting(hdrMode: int): (s: (bv32, seq<int>))
    ensures |s.1| == 1
    ensures hdrMode == GainHdr.CAMERA || hdrMode == GainHdr.INTERLEAVED ==> s == (FF.MANUAL, [hdrMode])
    ensures hdrMode != GainHdr.CAMERA && hdrMode != GainHdr.INTERLEAVED ==> s == (FF.OFF, [0])
  {
    if GainHdr.CAMERA == hdrMode then (FF.MANUAL, [GainHdr.CAMERA])
    else if GainHdr.INTERLEAVED == hdrMode then (FF.MANUAL, [GainHdr.INTERLEAVED])
    else (FF.OFF, [0])
  }

  /**
   * What `set_hdr_mode` writes is what the size computations read back: the stored value
   * counts as interleaved exactly for the INTERLEAVED mode.
   */
  lemma HdrSettingReadBack(hdrMode: int)
    ensures var s := HdrSetting(hdrMode);
      GCI.HdrMultiplier(Succeeded(0, Feature(s.0, s.1))) == Normal(if hdrMode == GainHdr.INTERLEAVED then 2 else 1)
    ensures HdrSetting(hdrMode).1[0] == if hdrMode == GainHdr.CAMERA || hdrMode == GainHdr.INTERLEAVED then hdrMode else GainHdr.NONE
  {
  }

  /** `set_hdr_mode(hCamera, hdrMode)`: SUCCESS exactly when `setFeature(GAIN_HDR, ...)` succeeds. */
  method SetHdrMode(hCamera: int, hdrMode: int, native: SetFeatureRequest -> int)
    returns (r: Outcome<int>, sent: Option<SetFeatureRequest>)
    ensures hCamera == 0 ==> r == Raised(AssertionError) && sent == None
    ensures hCamera != 0 ==>
      && sent.Some?
      && sent.value == SetFeatureRequest(FID.GAIN_HDR, HdrSetting(hdrMode).0, 1, HdrSetting(hdrMode).1)
      && (r == Normal(SUCCESS) <==> ApiSuccess(native(sent.value)))
      && (r == Normal(FAILURE) <==> !ApiSuccess(native(sent.value)))
  {
    if hCamera == 0 {
      return Raised(AssertionError), None;
    }
    var setting := HdrSetting(hdrMode);
    var rc, req := SetFeature(FID.GAIN_HDR, setting.0, setting.1, native);
    assert req.params == setting.1;
    sent := Some(req);
    if !ApiSuccess(rc) {
      return Normal(FAILURE), sent;
    }
    r := Normal(SUCCESS);
  }

  /**
   * `determine_raw_image_size(hCamera)` from the ROI, PIXEL_ADDRESSING, PIXEL_FORMAT and
   * GAIN_HDR replies: 0 when a query fails, otherwise
   * `int((w / paX) * (h / paY) * bytesPerPixel)`, doubled afterwards in interleaved mode.
   */
  function DetermineRawImageSize(roi: Reply<Feature>, pa: Reply<Feature>, format: Reply<Feature>, hdr: Reply<Feature>): (r: Outcome<int>)
    requires roi.WellShaped() && pa.WellShaped() && format.WellShaped() && hdr.WellShaped()
    ensures !ApiSuccess(roi.rc) ==> r == Normal(0)
    ensures r.Normal? && (!ApiSuccess(roi.rc) || !ApiSuccess(pa.rc) || !ApiSuccess(format.rc) || !ApiSuccess(hdr.rc)) ==> r.value == 0
    ensures r.Raised? ==> r.exc == IndexError || r.exc == ZeroDivisionError
    ensures r.Normal? && ApiSuccess(roi.rc) && ApiSuccess(pa.rc) && ApiSuccess(format.rc) && ApiSuccess(hdr.rc) ==>
      && |roi.value.params| > FP.ROI_HEIGHT && |pa.value.params| > FP.PA_Y_VALUE
      && |format.value.params| > 0 && |hdr.value.params| > 0
      && var frame := GS.RawSize(roi.value.params[FP.ROI_WIDTH], roi.value.params[FP.ROI_HEIGHT],
                                 pa.value.params[FP.PA_X_VALUE], pa.value.params[FP.PA_Y_VALUE],
                                 format.value.params[0]);
         && frame.Normal?
         && r.value == (if hdr.value.params[0] == GainHdr.INTERLEAVED then 2 * frame.value else frame.value)
    ensures ApiSuccess(roi.rc) && |roi.value.params| <= FP.ROI_HEIGHT ==> r == Raised(IndexError)
    ensures ApiSuccess(roi.rc) && |roi.value.params| > FP.ROI_HEIGHT ==>
      && (!ApiSuccess(pa.rc) ==> r == Normal(0))
      && (ApiSuccess(pa.rc) && |pa.value.params| <= FP.PA_Y_VALUE ==> r == Raised(IndexError))
    ensures ApiSuccess(roi.rc) && |roi.value.params| > FP.ROI_HEIGHT && ApiSuccess(pa.rc) && |pa.value.params| > FP.PA_Y_VALUE ==>
      var paX, paY := pa.value.params[FP.PA_X_VALUE], pa.value.params[FP.PA_Y_VALUE];
      && (paX == 0 || paY == 0 ==> r == Raised(ZeroDivisionError))
      && (paX != 0 && paY != 0 && !ApiSuccess(format.rc) ==> r == Normal(0))
      && (paX != 0 && paY != 0 && ApiSuccess(format.rc) && |format.value.params| == 0 ==> r == Raised(IndexError))
      && (paX != 0 && paY != 0 && ApiSuccess(format.rc) && |format.value.params| > 0 ==>
            var frame := TruncDiv(roi.value.params[FP.ROI_WIDTH] * roi.value.params[FP.ROI_HEIGHT] *
                                  BytesPerPixelQuarters(format.value.params[0]), paX * paY * 4);
            && (!ApiSuccess(hdr.rc) ==> r == Normal(0))
            && (ApiSuccess(hdr.rc) && |hdr.value.params| == 0 ==> r == Raised(IndexError))
            && (ApiSuccess(hdr.rc) && |hdr.value.params| > 0 ==>
                  r == Normal(if hdr.value.params[0] == GainHdr.INTERLEAVED then 2 * frame else frame)))
  {
    if !ApiSuccess(roi.rc) then Normal(0)
    else
      var p := roi.value.params;
      if |p| <= FP.ROI_HEIGHT then Raised(IndexError)
      else if !ApiSuccess(pa.rc) then Normal(0)
      else
        var a := pa.value.params;
        if |a| <= FP.PA_Y_VALUE then Raised(IndexError)
        else if a[FP.PA_X_VALUE] == 0 || a[FP.PA_Y_VALUE] == 0 then Raised(ZeroDivisionError)
        else if !ApiSuccess(format.rc) then Normal(0)
        else if |format.value.params| == 0 then Raised(IndexError)
        else
          var frameSize := GS.RawSize(p[FP.ROI_WIDTH], p[FP.ROI_HEIGHT], a[FP.PA_X_VALUE], a[FP.PA_Y_VALUE], format.value.params[0]).value;
          if !ApiSuccess(hdr.rc) then Normal(0)
          else if |hdr.value.params| == 0 then Raised(IndexError)
          else if GainHdr.INTERLEAVED == hdr.value.params[0] then Normal(frameSize * 2)
          else Normal(frameSize)
  }

  /**
   * This sample doubles the truncated size, getCompressedImage.py doubles the width before
   * truncating; for non-negative sizes the two differ by at most one byte.
   */
  lemma {:induction false} DoublingOrder(n: nat, d: nat)
    requires d > 0
    ensures 0 <= (2 * n) / d - 2 * (n / d) <= 1
  {
    var q := n / d;
    var m := n % d;
    assert n == q * d + m && 0 <= m < d;
    assert 2 * n == (2 * q) * d + 2 * m;
    if 2 * m < d {
      DivUnique(2 * n, d, 2 * q, 2 * m);
    } else {
      assert 2 * n == (2 * q + 1) * d + (2 * m - d);
      DivUnique(2 * n, d, 2 * q + 1, 2 * m - d);
    }
  }

  lemma DivUnique(n: nat, d: nat, q: nat, m: nat)
    requires d > 0 && n == q * d + m && m < d
    ensures n / d == q
  {
    var q', m' := n / d, n % d;
    assert n == q' * d + m' && 0 <= m' < d;
    assert (q' - q) * d == m - m';
    if q' > q {
      MulAtLeast(q' - q, d);
    } else if q' < q {
      MulAtLeast(q - q', d);
    }
  }

  lemma MulAtLeast(k: int, d: nat)
    requires k >= 1
    ensures k * d >= d
  {
  }

  /** A one-pixel frame of 1.5 bytes: this sample reports 2 bytes, the compressed-image sample 3. */
  lemma DoublingOrderExample()
    ensures DetermineRawImageSize(Succeeded(0, Feature(0, [0, 0, 1, 1])), Succeeded(0, Feature(0, [0, 0, 1, 1])),
                                  Succeeded(0, Feature(0, [PF.MONO12_PACKED])), GCI.HdrReply(GainHdr.INTERLEAVED)) == Normal(2)
    ensures GCI.GetFrameSize(Succeeded(0, Feature(0, [0, 0, 1, 1])), Succeeded(0, Feature(0, [0, 0, 1, 1])),
                             GCI.HdrReply(GainHdr.INTERLEAVED), 6) == Normal(GCI.Size(3))
  {
    assert BytesPerPixelQuarters(PF.MONO12_PACKED) == 6;
    assert TruncDiv(6, 4) == 1;
    assert TruncDiv(12, 4) == 3;
  }

  /**
   * `get_hdr_snapshot(hCamera, imageFormat, fileName)`, with `fileName == None` for Python's
   * None and the image format folded into `formatted`.
   */
  method GetHdrSnapshot<D>(hCamera: int, imageFormat: int, fileName: Option<string>,
                           roi: Reply<Feature>, pa: Reply<Feature>, format: Reply<Feature>, hdr: Reply<Feature>,
                           start: int, attempt: nat -> Reply<D>, formatted: D -> Reply<seq<bv8>>, written: nat)
    returns (r: Outcome<int>, calls: seq<GS.Call>)
    requires roi.WellShaped() && pa.WellShaped() && format.WellShaped() && hdr.WellShaped()
    ensures hCamera == 0 || imageFormat < 0 || fileName.None? ==> r == Raised(AssertionError) && calls == []
    ensures hCamera != 0 && 0 <= imageFormat && fileName.Some? ==>
      var size := DetermineRawImageSize(roi, pa, format, hdr);
      && (size.Raised? ==> r == Raised(size.exc) && calls == [])
      && (size == Normal(0) ==> r == Normal(FAILURE) && calls == [])
      && (size.Normal? && size.value < 0 ==> r == Raised(ValueError) && calls == [])
      && (size.Normal? && size.value > 0 && !ApiSuccess(start) ==>
            r == Raised(TypeError) && calls == [GS.SetStreamState(SS.START)])
      && (size.Normal? && size.value > 0 && ApiSuccess(start) ==>
            GS.CaptureTrace(attempt, calls) &&
            r == GS.FormatAndSave(GS.Tuple(GS.LastReply(attempt, calls)), formatted, fileName.value, written))
  {
    if hCamera == 0 || imageFormat < 0 || fileName.None? {
      return Raised(AssertionError), [];
    }
    var size := DetermineRawImageSize(roi, pa, format, hdr);
    if size.Raised? {
      return Raised(size.exc), [];
    }
    r, calls := GS.SnapshotFromSize(hCamera, size.value, fileName.value, start, attempt, formatted, written);
  }

  const FILE_ENDINGS: seq<string> := ["CameraHdr.bmp", "InterleavedHdr.bmp"]

  /** The request `set_hdr_mode(hCamera, hdrMode)` sends. */
  function HdrRequest(hdrMode: int): SetFeatureRequest {
    SetFeatureRequest(FID.GAIN_HDR, HdrSetting(hdrMode).0, 1, HdrSetting(hdrMode).1)
  }

  /**
   * The HDR part of `main`: for each of the two modes (CAMERA, then INTERLEAVED), set it and
   * take a snapshot; then switch HDR off. `snapshot(m, name)` is `get_hdr_snapshot`'s result
   * in mode `m`; `modes` lists the modes set, in order.
   */
  method CaptureEachHdrMode(hCamera: int, fileRoot: string, native: SetFeatureRequest -> int,
                            snapshot: (int, string) -> Outcome<int>)
    returns (r: Outcome<int>, modes: seq<int>)
    requires hCamera != 0
    ensures r.Normal? ==> r.value == SUCCESS || r.value == FAILURE
    ensures modes == [GainHdr.CAMERA] ==> r == Normal(FAILURE) || r == snapshot(GainHdr.CAMERA, fileRoot + FILE_ENDINGS[0])
    ensures !ApiSuccess(native(SetFeatureRequest(FID.GAIN_HDR, FF.MANUAL, 1, [GainHdr.CAMERA]))) ==>
      r == Normal(FAILURE) && modes == [GainHdr.CAMERA]
    ensures r.Normal? && modes != [GainHdr.CAMERA] ==> |modes| >= 2 && modes[..2] == [GainHdr.CAMERA, GainHdr.INTERLEAVED]
    ensures r.Normal? && |modes| == 3 ==>
      && modes == [GainHdr.CAMERA, GainHdr.INTERLEAVED, GainHdr.NONE]
      && snapshot(GainHdr.CAMERA, fileRoot + FILE_ENDINGS[0]).Normal?
      && (r == Normal(SUCCESS) <==> snapshot(GainHdr.INTERLEAVED, fileRoot + FILE_ENDINGS[1]) == Normal(SUCCESS))
    ensures r == Normal(SUCCESS) ==> |modes| == 3
    ensures var s1, shot1 := native(HdrRequest(GainHdr.CAMERA)), snapshot(GainHdr.CAMERA, fileRoot + FILE_ENDINGS[0]);
      && (!ApiSuccess(s1) ==> r == Normal(FAILURE) && modes == [GainHdr.CAMERA])
      && (ApiSuccess(s1) && shot1.Raised? ==> r == Raised(shot1.exc) && modes == [GainHdr.CAMERA])
    ensures var s1, shot1 := native(HdrRequest(GainHdr.CAMERA)), snapshot(GainHdr.CAMERA, fileRoot + FILE_ENDINGS[0]);
      var s2, shot2 := native(HdrRequest(GainHdr.INTERLEAVED)), snapshot(GainHdr.INTERLEAVED, fileRoot + FILE_ENDINGS[1]);
      ApiSuccess(s1) && shot1.Normal? ==>
        && (!ApiSuccess(s2) ==> r == Normal(FAILURE) && modes == [GainHdr.CAMERA, GainHdr.INTERLEAVED])
        && (ApiSuccess(s2) && shot2.Raised? ==> r == Raised(shot2.exc) && modes == [GainHdr.CAMERA, GainHdr.INTERLEAVED])
        && (ApiSuccess(s2) && shot2.Normal? ==>
              && modes == [GainHdr.CAMERA, GainHdr.INTERLEAVED, GainHdr.NONE]
              && (r == Normal(SUCCESS) <==> shot2 == Normal(SUCCESS))
              && (r != Normal(SUCCESS) ==> r == Normal(FAILURE)))
  {
    modes := [];
    var retVal := FAILURE;
    for index := 0 to GainHdr.INTERLEAVED
      invariant |modes| == index
      invariant forall k :: 0 <= k < index ==> modes[k] == k + 1
      invariant index > 0 ==> snapshot(index, fileRoot + FILE_ENDINGS[index - 1]) == Normal(retVal)
      invariant index == 2 ==> snapshot(GainHdr.CAMERA, fileRoot + FILE_ENDINGS[0]).Normal?
      invariant index > 0 ==> ApiSuccess(native(SetFeatureRequest(FID.GAIN_HDR, FF.MANUAL, 1, [GainHdr.CAMERA])))
      invariant forall k :: 0 < k <= index ==>
        ApiSuccess(native(HdrRequest(k))) && snapshot(k, fileRoot + FILE_ENDINGS[k - 1]).Normal?
    {
      var hdrMode := index + 1;
      var setRet, _ := SetHdrMode(hCamera, hdrMode, native);
      modes := modes + [hdrMode];
      if setRet == Normal(FAILURE) {
        return Normal(FAILURE), modes;
      }
      var fileName := fileRoot + FILE_ENDINGS[index];
      var shot := snapshot(hdrMode, fileName);
      if shot.Raised? {
        return Raised(shot.exc), modes;
      }
      retVal := shot.value;
    }
    var _, _ := SetHdrMode(hCamera, GainHdr.NONE, native);
    modes := modes + [GainHdr.NONE];
    if SUCCESS != retVal {
      return Normal(FAILURE), modes;
    }
    r := Normal(SUCCESS);
  }
}

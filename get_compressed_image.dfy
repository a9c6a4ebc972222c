// samples/Linux/getCompressedImage.py: `is_bayer8`, `get_frame_size` and the pixel-format
// gate at the start of `main`. A feature query is the wrapper's `getFeature` reply; the
// capture and compression steps that follow the gate are not part of this model.

module GetCompressedImage {
  import opened Outcomes
  import opened PxLApi
  import PF = PixelFormat
  import FP = FrameParams
  import GainHdr

  const A_OK: int := 0
  const GENERAL_ERROR: int := 1

  /** `is_bayer8(pixelFormat)`: one of the four 8-bit Bayer orders. */
  predicate IsBayer8(pixelFormat: int) {
    pixelFormat == PF.BAYER8_RGGB || pixelFormat == PF.BAYER8_GBRG ||
    pixelFormat == PF.BAYER8_BGGR || pixelFormat == PF.BAYER8_GRBG
  }

  /** The formats the sample accepts, MONO8 and the Bayer-8 orders, are exactly the one-byte formats. */
  lemma AcceptedFormatsAreOneByte(f: int)
    ensures f == PF.MONO8 || IsBayer8(f) <==> f in OneByteFormats
    ensures f == PF.MONO8 || IsBayer8(f) <==> BytesPerPixelQuarters(f) == 4
  {
    BytesPerPixelValues(f);
  }

  /** What `get_frame_size` returns: the failing reply tuple of a query, or a byte count. */
  datatype FrameSize = FailedQuery(reply: Reply<Feature>) | Size(bytes: int)

  /**
   * The interleaved-HDR multiplier: 2 when the GAIN_HDR query succeeds and its value is
   * INTERLEAVED, 1 when it fails or holds another mode.
   */
  function HdrMultiplier(hdr: Reply<Feature>): (m: Outcome<nat>)
    requires hdr.WellShaped()
    ensures m.Raised? <==> ApiSuccess(hdr.rc) && |hdr.value.params| == 0
    ensures m.Raised? ==> m.exc == IndexError
    ensures m == Normal(2) <==> ApiSuccess(hdr.rc) && |hdr.value.params| > 0 && hdr.value.params[0] == GainHdr.INTERLEAVED
    ensures m == Normal(1) <==> !ApiSuccess(hdr.rc) || (|hdr.value.params| > 0 && hdr.value.params[0] != GainHdr.INTERLEAVED)
  {
    if ApiSuccess(hdr.rc) then
      if |hdr.value.params| == 0 then Raised(IndexError)
      else if hdr.value.params[0] == GainHdr.INTERLEAVED then Normal(2)
      else Normal(1)
    else Normal(1)
  }

  /**
   * `get_frame_size(hCamera, bytesPerPixel)` with the replies of the ROI, PIXEL_ADDRESSING
   * and GAIN_HDR queries and the byte width in quarter bytes. The result is
   * `int((w / paX) * mult * (h / paY) * bytesPerPixel)`, computed exactly.
   */
  function GetFrameSize(roi: Reply<Feature>, pa: Reply<Feature>, hdr: Reply<Feature>, bppQuarters: nat): (r: Outcome<FrameSize>)
    requires roi.WellShaped() && pa.WellShaped() && hdr.WellShaped()
    ensures !ApiSuccess(roi.rc) ==> r == Normal(FailedQuery(roi))
    ensures ApiSuccess(roi.rc) && |roi.value.params| > FP.ROI_HEIGHT && !ApiSuccess(pa.rc) ==> r == Normal(FailedQuery(pa))
    ensures r.Normal? && r.value.FailedQuery? ==> !ApiSuccess(r.value.reply.rc) && (r.value.reply == roi || r.value.reply == pa)
    ensures r.Raised? ==> r.exc == IndexError || r.exc == ZeroDivisionError
    ensures r.Normal? && r.value.Size? ==>
      && ApiSuccess(roi.rc) && ApiSuccess(pa.rc)
      && |roi.value.params| > FP.ROI_HEIGHT && |pa.value.params| > FP.PA_Y_VALUE
      && var w := roi.value.params[FP.ROI_WIDTH];
         var h := roi.value.params[FP.ROI_HEIGHT];
         var paX := pa.value.params[FP.PA_X_VALUE];
         var paY := pa.value.params[FP.PA_Y_VALUE];
         && paX != 0 && paY != 0 && HdrMultiplier(hdr).Normal?
         && r.value.bytes == TruncDiv(w * HdrMultiplier(hdr).value * h * bppQuarters, paX * paY * 4)
    ensures r == Raised(ZeroDivisionError) <==>
      && ApiSuccess(roi.rc) && ApiSuccess(pa.rc)
      && |roi.value.params| > FP.ROI_HEIGHT && |pa.value.params| > FP.PA_Y_VALUE
      && (pa.value.params[FP.PA_X_VALUE] == 0 || pa.value.params[FP.PA_Y_VALUE] == 0)
    ensures ApiSuccess(roi.rc) && |roi.value.params| <= FP.ROI_HEIGHT ==> r == Raised(IndexError)
    ensures ApiSuccess(roi.rc) && |roi.value.params| > FP.ROI_HEIGHT && ApiSuccess(pa.rc) && |pa.value.params| <= FP.PA_Y_VALUE
      ==> r == Raised(IndexError)
    ensures
      && ApiSuccess(roi.rc) && ApiSuccess(pa.rc)
      && |roi.value.params| > FP.ROI_HEIGHT && |pa.value.params| > FP.PA_Y_VALUE
      && pa.value.params[FP.PA_X_VALUE] != 0 && pa.value.params[FP.PA_Y_VALUE] != 0
      ==> (HdrMultiplier(hdr).Raised? ==> r == Raised(IndexError))
          && (HdrMultiplier(hdr).Normal? ==> r.Normal? && r.value.Size?)
  {
    if !ApiSuccess(roi.rc) then Normal(FailedQuery(roi))
    else
      var p := roi.value.params;
      if |p| <= FP.ROI_HEIGHT then Raised(IndexError)
      else if !ApiSuccess(pa.rc) then Normal(FailedQuery(pa))
      else
        var a := pa.value.params;
        if |a| <= FP.PA_Y_VALUE then Raised(IndexError)
        else if a[FP.PA_X_VALUE] == 0 || a[FP.PA_Y_VALUE] == 0 then Raised(ZeroDivisionError)
        else
          var m := HdrMultiplier(hdr);
          if m.Raised? then Raised(m.exc)
          else Normal(Size(TruncDiv(p[FP.ROI_WIDTH] * m.value * p[FP.ROI_HEIGHT] * bppQuarters, a[FP.PA_X_VALUE] * a[FP.PA_Y_VALUE] * 4)))
  }

  /** A GAIN_HDR reply holding one mode value. */
  function HdrReply(mode: int): Reply<Feature> {
    Succeeded(0, Feature(0, [mode]))
  }

  /** A failed GAIN_HDR query does not abort: the size is the one with HDR off. */
  lemma HdrFailureIgnored(roi: Reply<Feature>, pa: Reply<Feature>, rc: int, bppQuarters: nat)
    requires roi.WellShaped() && pa.WellShaped() && rc < 0
    ensures GetFrameSize(roi, pa, Failed(rc), bppQuarters) == GetFrameSize(roi, pa, HdrReply(GainHdr.NONE), bppQuarters)
  {
  }

  /** Interleaved HDR gives the size of a frame of twice the ROI width. */
  lemma InterleavedDoublesWidth(w: int, h: int, roiRest: seq<int>, pa: Reply<Feature>, bppQuarters: nat)
    requires pa.WellShaped()
    ensures var roi := Succeeded(0, Feature(0, [0, 0, w, h] + roiRest));
            var wide := Succeeded(0, Feature(0, [0, 0, 2 * w, h] + roiRest));
            GetFrameSize(roi, pa, HdrReply(GainHdr.INTERLEAVED), bppQuarters)
              == GetFrameSize(wide, pa, HdrReply(GainHdr.NONE), bppQuarters)
  {
    var roi: Reply<Feature> := Succeeded(0, Feature(0, [0, 0, w, h] + roiRest));
    var wide: Reply<Feature> := Succeeded(0, Feature(0, [0, 0, 2 * w, h] + roiRest));
    assert roi.value.params[FP.ROI_WIDTH] == w && roi.value.params[FP.ROI_HEIGHT] == h;
    assert wide.value.params[FP.ROI_WIDTH] == 2 * w && wide.value.params[FP.ROI_HEIGHT] == h;
    assert w * 2 * h * bppQuarters == (2 * w) * 1 * h * bppQuarters;
  }

  /**
   * Without interleaving, and for non-negative ROI and addressing values, the sample's size
   * is the wrapper's `imageSize` of the matching frame descriptor.
   */
  lemma AgreesWithImageSize(w: nat, h: nat, paX: nat, paY: nat, pixelFormat: int, rc: int)
    requires rc < 0
    ensures var roi := Succeeded(0, Feature(0, [0, 0, w, h]));
            var pa := Succeeded(0, Feature(0, [0, 0, paX, paY]));
            var r := GetFrameSize(roi, pa, Failed(rc), BytesPerPixelQuarters(pixelFormat));
            var s := ImageSize(FrameDesc(w, h, paX, paY, pixelFormat));
            (r.Raised? <==> s.Raised?) && (s.Normal? ==> r == Normal(Size(s.value)))
  {
    var q := BytesPerPixelQuarters(pixelFormat);
    if paX != 0 && paY != 0 {
      var n := w * 1 * h * q;
      var d := paX * paY * 4;
      assert n == w * h * q;
      MulPositive(paX, paY);
      assert TruncDiv(n, d) == n / d;
    }
  }

  lemma MulPositive(a: nat, b: nat)
    requires a > 0 && b > 0
    ensures a * b > 0
  {
  }

  /** The outcome of the setup steps of `main` that the model covers. */
  datatype Setup = Rejected(code: int) | Ready(pixelFormat: int, frameSize: int)

  /**
   * Lines 112-131 of `main`: read the pixel format, accept only MONO8 and the Bayer-8
   * orders, and compute the frame size, rejecting a failed size query.
   */
  function CheckSetup(format: Reply<Feature>, roi: Reply<Feature>, pa: Reply<Feature>, hdr: Reply<Feature>): (r: Outcome<Setup>)
    requires format.WellShaped() && roi.WellShaped() && pa.WellShaped() && hdr.WellShaped()
    ensures !ApiSuccess(format.rc) ==> r == Normal(Rejected(GENERAL_ERROR))
    ensures r.Normal? && r.value.Rejected? ==> r.value.code == GENERAL_ERROR
    ensures r.Normal? && r.value.Ready? ==>
      && ApiSuccess(format.rc) && |format.value.params| > 0
      && r.value.pixelFormat == format.value.params[0]
      && BytesPerPixelQuarters(r.value.pixelFormat) == 4
      && GetFrameSize(roi, pa, hdr, 4) == Normal(Size(r.value.frameSize))
    ensures ApiSuccess(format.rc) && |format.value.params| == 0 ==> r == Raised(IndexError)
    ensures ApiSuccess(format.rc) && |format.value.params| > 0 ==>
      var f := format.value.params[0];
      var size := GetFrameSize(roi, pa, hdr, 4);
      && (f != PF.MONO8 && !IsBayer8(f) ==> r == Normal(Rejected(GENERAL_ERROR)))
      && (f == PF.MONO8 || IsBayer8(f) ==>
            && (size.Raised? ==> r == Raised(size.exc))
            && (size.Normal? && size.value.FailedQuery? ==> r == Normal(Rejected(GENERAL_ERROR)))
            && (size.Normal? && size.value.Size? ==> r == Normal(Ready(f, size.value.bytes))))
  {
    if !ApiSuccess(format.rc) then Normal(Rejected(GENERAL_ERROR))
    else if |format.value.params| == 0 then Raised(IndexError)
    else
      var pixelFormat := format.value.params[0];
      if !(pixelFormat == PF.MONO8) && !IsBayer8(pixelFormat) then Normal(Rejected(GENERAL_ERROR))
      else
        AcceptedFormatsAreOneByte(pixelFormat);
        var frameSize := GetFrameSize(roi, pa, hdr, BytesPerPixelQuarters(pixelFormat));
        if frameSize.Raised? then Raised(frameSize.exc)
        else if frameSize.value.FailedQuery? then Normal(Rejected(GENERAL_ERROR))
        else Normal(Ready(pixelFormat, frameSize.value.bytes))
  }
}

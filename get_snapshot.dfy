// samples/Windows/getSnapshot.py: `determine_raw_image_size`, `get_raw_image`,
// `save_image_to_file` and `get_snapshot`. getHDRSnapshot.py and getPolarSnapshot.py carry
// line-for-line copies of `get_raw_image`, `save_image_to_file` and the capture half of
// the snapshot function, so their modules reuse the members here.
//
// The camera is an oracle: `start` is the code of `setStreamState(START)`, `attempt(k)` the
// reply of the k-th `getNextFrame` (from 0), `formatted(d)` the reply of `formatImage` for
// descriptor `d`, and `written` the count `file.write` reports.

module GetSnapshot {
  import opened Outcomes
  import opened PxLApi
  import SS = StreamState
  import FP = FrameParams
  import RC = ReturnCode

  const SUCCESS: int := 0
  const FAILURE: int := 1
  const MAX_NUM_TRIES: nat := 4

  /** The camera calls a capture makes, in order. */
  datatype Call = SetStreamState(state: int) | GetNextFrame

  /** What `get_raw_image` returns: the bare integer FAILURE, or a reply tuple. */
  datatype RawImage<+D> = Bare(code: int) | Tuple(reply: Reply<D>)

  /** Python's `ret[0]`: an integer is not subscriptable. */
  function FirstItem<D>(v: RawImage<D>): (r: Outcome<int>)
    ensures v.Bare? <==> r == Raised(TypeError)
    ensures v.Tuple? ==> r == Normal(v.reply.rc)
  {
    match v
    case Bare(_) => Raised(TypeError)
    case Tuple(reply) => Normal(reply.rc)
  }

  // ---------------------------------------------------------------------------
  // get_raw_image

  /**
   * A capture's calls: START, one to four `getNextFrame` calls that all fail but perhaps
   * the last, the last one successful unless all four were made, and STOP.
   */
  predicate CaptureTrace<D>(attempt: nat -> Reply<D>, calls: seq<Call>) {
    && 3 <= |calls| <= MAX_NUM_TRIES + 2
    && calls[0] == SetStreamState(SS.START)
    && calls[|calls| - 1] == SetStreamState(SS.STOP)
    && (forall k :: 1 <= k < |calls| - 1 ==> calls[k] == GetNextFrame)
    && (forall k: nat :: k < |calls| - 3 ==> !ApiSuccess(attempt(k).rc))
    && (|calls| - 2 < MAX_NUM_TRIES ==> ApiSuccess(attempt(|calls| - 3).rc))
  }

  /** The reply a capture ends with: that of its last `getNextFrame` call. */
  function LastReply<D>(attempt: nat -> Reply<D>, calls: seq<Call>): Reply<D>
    requires |calls| >= 3
  {
    attempt(|calls| - 3)
  }

  /** The `for` loop of `get_raw_image`: up to four frames, stopping at the first success. */
  method CaptureRetrying<D>(attempt: nat -> Reply<D>) returns (ret: Reply<D>, tries: nat)
    ensures 1 <= tries <= MAX_NUM_TRIES
    ensures ret == attempt(tries - 1)
    ensures forall k: nat :: k < tries - 1 ==> !ApiSuccess(attempt(k).rc)
    ensures tries < MAX_NUM_TRIES ==> ApiSuccess(ret.rc)
  {
    ret := Failed(RC.ApiUnknownError);
    tries := 0;
    for i := 0 to MAX_NUM_TRIES
      invariant tries == i
      invariant i > 0 ==> ret == attempt(i - 1)
      invariant forall k: nat :: k < i ==> !ApiSuccess(attempt(k).rc)
    {
      ret := attempt(i);
      tries := tries + 1;
      if ApiSuccess(ret.rc) {
        return;
      }
    }
  }

  /**
   * `get_raw_image(hCamera, rawImage)` as written: a failed START returns the bare integer
   * FAILURE instead of a reply tuple.
   */
  method GetRawImage<D>(hCamera: int, rawImageLen: nat, start: int, attempt: nat -> Reply<D>)
    returns (r: Outcome<RawImage<D>>, calls: seq<Call>)
    ensures hCamera == 0 || rawImageLen == 0 ==> r == Raised(AssertionError) && calls == []
    ensures hCamera != 0 && rawImageLen != 0 && !ApiSuccess(start) ==>
      r == Normal(Bare(FAILURE)) && calls == [SetStreamState(SS.START)]
    ensures hCamera != 0 && rawImageLen != 0 && ApiSuccess(start) ==>
      CaptureTrace(attempt, calls) && r == Normal(Tuple(LastReply(attempt, calls)))
  {
    if hCamera == 0 || rawImageLen == 0 {
      return Raised(AssertionError), [];
    }
    calls := [SetStreamState(SS.START)];
    if !ApiSuccess(start) {
      return Normal(Bare(FAILURE)), calls;
    }
    var ret, tries := CaptureRetrying(attempt);
    calls := calls + seq(tries, _ => GetNextFrame) + [SetStreamState(SS.STOP)];
    r := Normal(Tuple(ret));
  }

  /** `get_raw_image` returning the failed START reply `(rc,)`, as its callers expect. */
  method GetRawImageFixed<D>(hCamera: int, rawImageLen: nat, start: int, attempt: nat -> Reply<D>)
    returns (r: Outcome<RawImage<D>>, calls: seq<Call>)
    ensures hCamera == 0 || rawImageLen == 0 ==> r == Raised(AssertionError) && calls == []
    ensures hCamera != 0 && rawImageLen != 0 && !ApiSuccess(start) ==>
      r == Normal(Tuple(Failed(start))) && calls == [SetStreamState(SS.START)]
    ensures hCamera != 0 && rawImageLen != 0 && ApiSuccess(start) ==>
      CaptureTrace(attempt, calls) && r == Normal(Tuple(LastReply(attempt, calls)))
    ensures r.Normal? ==> r.value.Tuple?
  {
    if hCamera == 0 || rawImageLen == 0 {
      return Raised(AssertionError), [];
    }
    calls := [SetStreamState(SS.START)];
    if !ApiSuccess(start) {
      return Normal(Tuple(Failed(start))), calls;
    }
    var ret, tries := CaptureRetrying(attempt);
    calls := calls + seq(tries, _ => GetNextFrame) + [SetStreamState(SS.STOP)];
    r := Normal(Tuple(ret));
  }

  // ---------------------------------------------------------------------------
  // save_image_to_file and the capture half of get_snapshot

  /**
   * `save_image_to_file(fileName, formatedImage)`: SUCCESS exactly when the file received
   * every byte. An empty name or image fails the sample's assertions.
   */
  function SaveImageToFile(fileName: string, image: seq<bv8>, written: nat): (r: Outcome<int>)
    ensures r.Raised? <==> fileName == [] || |image| == 0
    ensures r.Raised? ==> r.exc == AssertionError
    ensures r == Normal(SUCCESS) <==> fileName != [] && |image| > 0 && written == |image|
    ensures r.Normal? ==> r.value == SUCCESS || r.value == FAILURE
  {
    if fileName == [] || |image| == 0 then Raised(AssertionError)
    else if written == |image| then Normal(SUCCESS)
    else Normal(FAILURE)
  }

  /**
   * What `get_snapshot` does with `get_raw_image`'s result: read `ret[0]`, format the
   * frame, and save it. Only the exact code SUCCESS from `formatImage` counts.
   */
  function FormatAndSave<D>(raw: RawImage<D>, formatted: D -> Reply<seq<bv8>>, fileName: string, written: nat): (r: Outcome<int>)
    ensures raw.Bare? ==> r == Raised(TypeError)
    ensures raw.Tuple? && !ApiSuccess(raw.reply.rc) ==> r == Normal(FAILURE)
    ensures raw.Tuple? && raw.reply.Succeeded? && ApiSuccess(raw.reply.rc) ==>
      var f := formatted(raw.reply.value);
      if f.Succeeded? && f.rc == SUCCESS then r == SaveImageToFile(fileName, f.value, written)
      else r == Normal(FAILURE)
    ensures r == Normal(SUCCESS) ==> raw.Tuple? && raw.reply.Succeeded? && written > 0
  {
    match FirstItem(raw)
    case Raised(e) => Raised(e)
    case Normal(rc) =>
      if !ApiSuccess(rc) || raw.reply.Failed? then Normal(FAILURE)
      else
        var f := formatted(raw.reply.value);
        if f.Succeeded? && f.rc == SUCCESS then
          var saved := SaveImageToFile(fileName, f.value, written);
          if saved == Normal(SUCCESS) then Normal(SUCCESS)
          else if saved.Raised? then saved
          else Normal(FAILURE)
        else Normal(FAILURE)
  }

  /** A failed START reaches `ret[0]` with a bare integer: the snapshot raises TypeError. */
  lemma BareFailureRaises<D>(formatted: D -> Reply<seq<bv8>>, fileName: string, written: nat)
    ensures FormatAndSave(Bare(FAILURE), formatted, fileName, written) == Raised(TypeError)
    ensures ApiSuccess(FAILURE)
  {
  }

  /** With the failed START tuple the snapshot reports FAILURE, as the sample intends. */
  lemma FailedStartReportsFailure<D>(start: int, formatted: D -> Reply<seq<bv8>>, fileName: string, written: nat)
    requires !ApiSuccess(start)
    ensures FormatAndSave(Tuple(Failed(start)), formatted, fileName, written) == Normal(FAILURE)
  {
  }

  /**
   * Lines 23-50 of `get_snapshot`, from the computed size on: size 0 fails without touching
   * the camera, the buffer is created, and the frame is captured, formatted and saved.
   */
  method SnapshotFromSize<D>(hCamera: int, rawImageSize: int, fileName: string, start: int,
                             attempt: nat -> Reply<D>, formatted: D -> Reply<seq<bv8>>, written: nat)
    returns (r: Outcome<int>, calls: seq<Call>)
    ensures rawImageSize == 0 ==> r == Normal(FAILURE) && calls == []
    ensures rawImageSize < 0 ==> r == Raised(ValueError) && calls == []
    ensures rawImageSize > 0 && hCamera == 0 ==> r == Raised(AssertionError) && calls == []
    ensures rawImageSize > 0 && hCamera != 0 && !ApiSuccess(start) ==>
      r == Raised(TypeError) && calls == [SetStreamState(SS.START)]
    ensures rawImageSize > 0 && hCamera != 0 && ApiSuccess(start) ==>
      && CaptureTrace(attempt, calls)
      && r == FormatAndSave(Tuple(LastReply(attempt, calls)), formatted, fileName, written)
  {
    if 0 == rawImageSize {
      return Normal(FAILURE), [];
    }
    if rawImageSize < 0 {
      // create_string_buffer of a negative length
      return Raised(ValueError), [];
    }
    var raw;
    raw, calls := GetRawImage(hCamera, rawImageSize, start, attempt);
    if raw.Raised? {
      return Raised(raw.exc), calls;
    }
    r := FormatAndSave(raw.value, formatted, fileName, written);
  }

  /** The same steps with the corrected `get_raw_image`: a failed START reports FAILURE. */
  method SnapshotFromSizeFixed<D>(hCamera: int, rawImageSize: int, fileName: string, start: int,
                                  attempt: nat -> Reply<D>, formatted: D -> Reply<seq<bv8>>, written: nat)
    returns (r: Outcome<int>, calls: seq<Call>)
    ensures rawImageSize == 0 ==> r == Normal(FAILURE) && calls == []
    ensures rawImageSize < 0 ==> r == Raised(ValueError) && calls == []
    ensures rawImageSize > 0 && hCamera == 0 ==> r == Raised(AssertionError) && calls == []
    ensures rawImageSize > 0 && hCamera != 0 && !ApiSuccess(start) ==>
      r == Normal(FAILURE) && calls == [SetStreamState(SS.START)]
    ensures rawImageSize > 0 && hCamera != 0 && ApiSuccess(start) ==>
      && CaptureTrace(attempt, calls)
      && r == FormatAndSave(Tuple(LastReply(attempt, calls)), formatted, fileName, written)
    ensures r.Raised? ==> r.exc != TypeError
  {
    if 0 == rawImageSize {
      return Normal(FAILURE), [];
    }
    if rawImageSize < 0 {
      return Raised(ValueError), [];
    }
    var raw;
    raw, calls := GetRawImageFixed(hCamera, rawImageSize, start, attempt);
    if raw.Raised? {
      return Raised(raw.exc), calls;
    }
    r := FormatAndSave(raw.value, formatted, fileName, written);
  }

  // ---------------------------------------------------------------------------
  // determine_raw_image_size

  /**
   * The pixel-addressing factors: 1 x 1 when the query fails, X_VALUE and Y_VALUE when the
   * camera reports all NUM_PARAMS values, otherwise VALUE for both axes.
   */
  function AddressingFactors(pa: Reply<Feature>): (r: Outcome<(int, int)>)
    ensures !pa.Succeeded? || !ApiSuccess(pa.rc) ==> r == Normal((1, 1))
    ensures pa.Succeeded? && ApiSuccess(pa.rc) && |pa.value.params| == FP.PA_NUM_PARAMS ==>
      r == Normal((pa.value.params[FP.PA_X_VALUE], pa.value.params[FP.PA_Y_VALUE]))
    ensures pa.Succeeded? && ApiSuccess(pa.rc) && |pa.value.params| != FP.PA_NUM_PARAMS ==>
      if |pa.value.params| == 0 then r == Raised(IndexError)
      else r == Normal((pa.value.params[FP.PA_VALUE], pa.value.params[FP.PA_VALUE]))
  {
    if pa.Succeeded? && ApiSuccess(pa.rc) then
      var a := pa.value.params;
      if FP.PA_NUM_PARAMS == |a| then Normal((a[FP.PA_X_VALUE], a[FP.PA_Y_VALUE]))
      else if |a| == 0 then Raised(IndexError)
      else Normal((a[FP.PA_VALUE], a[FP.PA_VALUE]))
    else Normal((1, 1))
  }

  /** `int((w / paX) * (h / paY) * bytesPerPixel)`, exactly, with the width in quarter bytes. */
  function RawSize(w: int, h: int, paX: int, paY: int, pixelFormat: int): (r: Outcome<int>)
    ensures r.Raised? <==> paX == 0 || paY == 0
    ensures r.Raised? ==> r.exc == ZeroDivisionError
    ensures r.Normal? ==> r.value == TruncDiv(w * h * BytesPerPixelQuarters(pixelFormat), paX * paY * 4)
    ensures r.Normal? && BytesPerPixelQuarters(pixelFormat) == 0 ==> r.value == 0
  {
    if paX == 0 || paY == 0 then Raised(ZeroDivisionError)
    else
      MulNonZero(paX, paY);
      Normal(TruncDiv(w * h * BytesPerPixelQuarters(pixelFormat), paX * paY * 4))
  }

  lemma MulNonZero(a: int, b: int)
    requires a != 0 && b != 0
    ensures a * b != 0
  {
  }

  /**
   * `determine_raw_image_size(hCamera)` as written: neither the ROI query nor the
   * pixel-format query is checked, so a failed one raises IndexError at `ret[2]`.
   */
  function DetermineRawImageSize(roi: Reply<Feature>, pa: Reply<Feature>, format: Reply<Feature>): (r: Outcome<int>)
    ensures roi.Failed? ==> r == Raised(IndexError)
    ensures roi.Succeeded? && |roi.value.params| > FP.ROI_HEIGHT && format.Failed? &&
            AddressingFactors(pa).Normal? && AddressingFactors(pa).value.0 != 0 && AddressingFactors(pa).value.1 != 0 ==>
      r == Raised(IndexError)
    ensures r.Normal? ==>
      && roi.Succeeded? && |roi.value.params| > FP.ROI_HEIGHT
      && format.Succeeded? && |format.value.params| > 0
      && AddressingFactors(pa).Normal?
      && var f := AddressingFactors(pa).value;
         RawSize(roi.value.params[FP.ROI_WIDTH], roi.value.params[FP.ROI_HEIGHT], f.0, f.1, format.value.params[0]) == r
    ensures roi.Succeeded? && |roi.value.params| <= FP.ROI_HEIGHT ==> r == Raised(IndexError)
    ensures roi.Succeeded? && |roi.value.params| > FP.ROI_HEIGHT && AddressingFactors(pa).Raised? ==> r == Raised(IndexError)
    ensures roi.Succeeded? && |roi.value.params| > FP.ROI_HEIGHT && AddressingFactors(pa).Normal? ==>
      var f := AddressingFactors(pa).value;
      && (f.0 == 0 || f.1 == 0 ==> r == Raised(ZeroDivisionError))
      && (f.0 != 0 && f.1 != 0 && (format.Failed? || |format.value.params| == 0) ==> r == Raised(IndexError))
      && (f.0 != 0 && f.1 != 0 && format.Succeeded? && |format.value.params| > 0 ==>
            r == Normal(TruncDiv(roi.value.params[FP.ROI_WIDTH] * roi.value.params[FP.ROI_HEIGHT] * BytesPerPixelQuarters(format.value.params[0]),
                                 f.0 * f.1 * 4)))
  {
    if roi.Failed? || |roi.value.params| <= FP.ROI_HEIGHT then Raised(IndexError)
    else
      var w := roi.value.params[FP.ROI_WIDTH];
      var h := roi.value.params[FP.ROI_HEIGHT];
      match AddressingFactors(pa)
      case Raised(e) => Raised(e)
      case Normal(f) =>
        if f.0 == 0 || f.1 == 0 then Raised(ZeroDivisionError)
        else if format.Failed? || |format.value.params| == 0 then Raised(IndexError)
        else RawSize(w, h, f.0, f.1, format.value.params[0])
  }

  /** A failed addressing query is the same as unit addressing. */
  lemma AddressingFallback(roi: Reply<Feature>, rc: int, format: Reply<Feature>)
    requires rc < 0
    ensures DetermineRawImageSize(roi, Failed(rc), format)
            == DetermineRawImageSize(roi, Succeeded(0, Feature(0, [0, 0, 1, 1])), format)
  {
  }

  /** A camera with symmetric addressing only uses its one VALUE for both axes. */
  lemma SymmetricAddressing(roi: Reply<Feature>, v: int, format: Reply<Feature>)
    ensures DetermineRawImageSize(roi, Succeeded(0, Feature(0, [v])), format)
            == DetermineRawImageSize(roi, Succeeded(0, Feature(0, [0, 0, v, v])), format)
  {
    var sym: Reply<Feature> := Succeeded(0, Feature(0, [v]));
    var asym: Reply<Feature> := Succeeded(0, Feature(0, [0, 0, v, v]));
    assert AddressingFactors(sym) == Normal((v, v));
    assert AddressingFactors(asym) == Normal((v, v));
  }

  /** `determine_raw_image_size` as its comment promises: 0 when a query fails. */
  function DetermineRawImageSizeChecked(roi: Reply<Feature>, pa: Reply<Feature>, format: Reply<Feature>): (r: Outcome<int>)
    ensures !ApiSuccess(roi.rc) || !ApiSuccess(format.rc) ==> r == Normal(0)
    ensures ApiSuccess(roi.rc) && ApiSuccess(format.rc) && roi.Succeeded? && format.Succeeded? ==>
      r == DetermineRawImageSize(roi, pa, format)
  {
    if !ApiSuccess(roi.rc) || !ApiSuccess(format.rc) then Normal(0)
    else DetermineRawImageSize(roi, pa, format)
  }

  /**
   * `get_snapshot(hCamera, imageFormat, fileName)`: the image format is folded into
   * `formatted`. The size comes from the unchecked `determine_raw_image_size`.
   */
  method GetSnapshotAsWritten<D>(hCamera: int, fileName: string, roi: Reply<Feature>, pa: Reply<Feature>, format: Reply<Feature>,
                                 start: int, attempt: nat -> Reply<D>, formatted: D -> Reply<seq<bv8>>, written: nat)
    returns (r: Outcome<int>, calls: seq<Call>)
    ensures hCamera == 0 || fileName == [] ==> r == Raised(AssertionError) && calls == []
    ensures hCamera != 0 && fileName != [] && roi.Failed? ==> r == Raised(IndexError) && calls == []
    ensures hCamera != 0 && fileName != [] && DetermineRawImageSize(roi, pa, format).Raised? ==>
      r == Raised(DetermineRawImageSize(roi, pa, format).exc) && calls == []
    ensures hCamera != 0 && fileName != [] && DetermineRawImageSize(roi, pa, format) == Normal(0) ==>
      r == Normal(FAILURE) && calls == []
    ensures hCamera != 0 && fileName != [] && DetermineRawImageSize(roi, pa, format).Normal? &&
            DetermineRawImageSize(roi, pa, format).value < 0 ==>
      r == Raised(ValueError) && calls == []
    ensures hCamera != 0 && fileName != [] && DetermineRawImageSize(roi, pa, format).Normal? &&
            DetermineRawImageSize(roi, pa, format).value > 0 && !ApiSuccess(start) ==>
      r == Raised(TypeError) && calls == [SetStreamState(SS.START)]
    ensures hCamera != 0 && fileName != [] && DetermineRawImageSize(roi, pa, format).Normal? &&
            DetermineRawImageSize(roi, pa, format).value > 0 && ApiSuccess(start) ==>
      && CaptureTrace(attempt, calls)
      && r == FormatAndSave(Tuple(LastReply(attempt, calls)), formatted, fileName, written)
  {
    if hCamera == 0 || fileName == [] {
      return Raised(AssertionError), [];
    }
    var size := DetermineRawImageSize(roi, pa, format);
    if size.Raised? {
      return Raised(size.exc), [];
    }
    r, calls := SnapshotFromSize(hCamera, size.value, fileName, start, attempt, formatted, written);
  }

  /** `get_snapshot` with both corrections: every failed query or START reports FAILURE. */
  method GetSnapshot<D>(hCamera: int, fileName: string, roi: Reply<Feature>, pa: Reply<Feature>, format: Reply<Feature>,
                        start: int, attempt: nat -> Reply<D>, formatted: D -> Reply<seq<bv8>>, written: nat)
    returns (r: Outcome<int>, calls: seq<Call>)
    ensures hCamera == 0 || fileName == [] ==> r == Raised(AssertionError) && calls == []
    ensures hCamera != 0 && fileName != [] && (!ApiSuccess(roi.rc) || !ApiSuccess(format.rc)) ==>
      r == Normal(FAILURE) && calls == []
    ensures hCamera != 0 && fileName != [] && DetermineRawImageSizeChecked(roi, pa, format).Raised? ==>
      r == Raised(DetermineRawImageSizeChecked(roi, pa, format).exc) && calls == []
    ensures hCamera != 0 && fileName != [] && DetermineRawImageSizeChecked(roi, pa, format) == Normal(0) ==>
      r == Normal(FAILURE) && calls == []
    ensures hCamera != 0 && fileName != [] && DetermineRawImageSizeChecked(roi, pa, format).Normal? &&
            DetermineRawImageSizeChecked(roi, pa, format).value < 0 ==>
      r == Raised(ValueError) && calls == []
    ensures hCamera != 0 && fileName != [] && DetermineRawImageSizeChecked(roi, pa, format).Normal? &&
            DetermineRawImageSizeChecked(roi, pa, format).value > 0 ==>
      if ApiSuccess(start) then
        CaptureTrace(attempt, calls) && r == FormatAndSave(Tuple(LastReply(attempt, calls)), formatted, fileName, written)
      else
        r == Normal(FAILURE) && calls == [SetStreamState(SS.START)]
    ensures r == Normal(SUCCESS) ==> CaptureTrace(attempt, calls) && LastReply(attempt, calls).Succeeded?
  {
    if hCamera == 0 || fileName == [] {
      return Raised(AssertionError), [];
    }
    var size := DetermineRawImageSizeChecked(roi, pa, format);
    if size.Raised? {
      return Raised(size.exc), [];
    }
    r, calls := SnapshotFromSizeFixed(hCamera, size.value, fileName, start, attempt, formatted, written);
  }
}

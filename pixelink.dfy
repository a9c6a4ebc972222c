// The host-side logic of the binding, pixelinkWrapper/pixelink.py: the success test,
// the result-tuple convention, the byte-width table, image-size arithmetic, the
// size-then-fill wrappers and the copies into fixed-size ctypes arrays. Every native
// entry point is an oracle: a reply value for a call whose arguments the wrapper does
// not build, a total function for a call that receives a buffer the wrapper built.

module PxLApi {
  import opened Outcomes
  import RC = ReturnCode
  import PF = PixelFormat

  // ---------------------------------------------------------------------------
  // Return codes and result tuples

  /** `apiSuccess`: zero and the positive advisory codes are successes. */
  predicate ApiSuccess(rc: int) {
    rc >= 0
  }

  /** Every failure code in a block of twelve is negative. */
  predicate AllFailures(codes: seq<int>) {
    forall i :: 0 <= i < |codes| ==> codes[i] < 0 && !ApiSuccess(codes[i])
  }

  /** The twelve success codes are 0..11 in declaration order and every failure code is negative. */
  lemma ReturnCodesClassified()
    ensures |RC.SuccessCodes| == 12 && |RC.ErrorCodes| == 72
    ensures forall i :: 0 <= i < |RC.SuccessCodes| ==> RC.SuccessCodes[i] == i && ApiSuccess(RC.SuccessCodes[i])
    ensures AllFailures(RC.ErrorCodes)
  {
    assert AllFailures(RC.ErrorCodes1);
    assert AllFailures(RC.ErrorCodes2);
    assert AllFailures(RC.ErrorCodes3);
    assert AllFailures(RC.ErrorCodes4);
    assert AllFailures(RC.ErrorCodes5);
    assert AllFailures(RC.ErrorCodes6);
  }

  /**
   * A wrapper's result tuple: `(rc,)` is Failed, `(rc, value...)` is Succeeded.
   * A wrapper with several values carries them as one record.
   */
  datatype Reply<+T> = Failed(rc: int) | Succeeded(rc: int, value: T) {
    /** Values are present exactly when the code denotes success. */
    predicate WellShaped() {
      (Failed? ==> rc < 0) && (Succeeded? ==> rc >= 0)
    }
  }

  /** The reply of a native call that has out-parameters: its code and what it wrote. */
  datatype NativeOut<+T> = NativeOut(rc: int, out: T)

  /** The tail shared by every wrapper with outputs: `if not apiSuccess(rc): return (rc,)`. */
  function Shape<T>(rc: int, value: T): (r: Reply<T>)
    ensures r.WellShaped() && r.rc == rc
    ensures r.Succeeded? <==> rc >= 0
    ensures r.Succeeded? ==> r.value == value
  {
    if ApiSuccess(rc) then Succeeded(rc, value) else Failed(rc)
  }

  /** `initialize(serialNumber, flags)`: the camera handle is returned only on success. */
  function Initialize(serialNumber: int, flags: int, native: (int, int) -> NativeOut<int>): (r: Reply<int>)
    ensures r.WellShaped() && r.rc == native(serialNumber, flags).rc
    ensures r.Succeeded? ==> r.value == native(serialNumber, flags).out
  {
    var n := native(serialNumber, flags);
    Shape(n.rc, n.out)
  }

  /** `createDescriptor(hCamera, updateMode)`: the descriptor handle only on success. */
  function CreateDescriptor(hCamera: int, updateMode: int, native: (int, int) -> NativeOut<int>): (r: Reply<int>)
    ensures r.WellShaped() && r.rc == native(hCamera, updateMode).rc
    ensures r.Succeeded? ==> r.value == native(hCamera, updateMode).out
  {
    var n := native(hCamera, updateMode);
    Shape(n.rc, n.out)
  }

  /** `getCurrentTimestamp(hCamera)`: the camera's clock only on success. */
  function GetCurrentTimestamp(hCamera: int, native: int -> NativeOut<real>): (r: Reply<real>)
    ensures r.WellShaped() && r.rc == native(hCamera).rc
    ensures r.Succeeded? ==> r.value == native(hCamera).out
  {
    var n := native(hCamera);
    Shape(n.rc, n.out)
  }

  /** `setPreviewState(hCamera, previewState)`: the preview window handle only on success. */
  function SetPreviewState(hCamera: int, previewState: int, native: (int, int) -> NativeOut<int>): (r: Reply<int>)
    ensures r.WellShaped() && r.rc == native(hCamera, previewState).rc
    ensures r.Succeeded? ==> r.value == native(hCamera, previewState).out
  {
    var n := native(hCamera, previewState);
    Shape(n.rc, n.out)
  }

  // ---------------------------------------------------------------------------
  // Bytes per pixel and image size

  /** The pixel formats of 1, 2, 1.5, 1.25, 3 and 6 bytes, each listed by value. */
  const OneByteFormats: set<int> := {PF.MONO8, PF.BAYER8_GRBG, PF.BAYER8_RGGB, PF.BAYER8_GBRG, PF.BAYER8_BGGR}
  const TwoByteFormats: set<int> := {PF.MONO16, PF.YUV422, PF.BAYER16_GRBG, PF.BAYER16_RGGB, PF.BAYER16_GBRG, PF.BAYER16_BGGR}
  const Packed12Formats: set<int> := {
    PF.MONO12_PACKED, PF.BAYER12_GRBG_PACKED, PF.BAYER12_RGGB_PACKED, PF.BAYER12_GBRG_PACKED,
    PF.BAYER12_BGGR_PACKED, PF.MONO12_PACKED_MSFIRST, PF.BAYER12_GRBG_PACKED_MSFIRST,
    PF.BAYER12_RGGB_PACKED_MSFIRST, PF.BAYER12_GBRG_PACKED_MSFIRST, PF.BAYER12_BGGR_PACKED_MSFIRST}
  const Packed10Formats: set<int> := {
    PF.MONO10_PACKED_MSFIRST, PF.BAYER10_GRBG_PACKED_MSFIRST, PF.BAYER10_RGGB_PACKED_MSFIRST,
    PF.BAYER10_GBRG_PACKED_MSFIRST, PF.BAYER10_BGGR_PACKED_MSFIRST}
  const ThreeByteFormats: set<int> := {PF.RGB24, PF.RGB24_NON_DIB, PF.BGR24}
  const SixByteFormats: set<int> := {PF.RGB48, PF.RGB48_DIB, PF.STOKES4_12, PF.POLAR4_12, PF.POLAR_RAW4_12, PF.HSV4_12}

  /**
   * `getBytesPerPixel(dataFormat)`: the dictionary lookup, in quarter bytes (1 byte = 4,
   * so 1.25 is 5 and 1.5 is 6), with 0 for a value that is not a key.
   */
  function BytesPerPixelQuarters(dataFormat: int): nat {
    if dataFormat in OneByteFormats then 4
    else if dataFormat in TwoByteFormats then 8
    else if dataFormat in Packed12Formats then 6
    else if dataFormat in Packed10Formats then 5
    else if dataFormat in ThreeByteFormats then 12
    else if dataFormat in SixByteFormats then 24
    else 0
  }

  /** The byte width of every format class, and 0 for every value outside the table. */
  lemma BytesPerPixelValues(f: int)
    ensures BytesPerPixelQuarters(f) == 4 <==> f in OneByteFormats
    ensures BytesPerPixelQuarters(f) == 8 <==> f in TwoByteFormats
    ensures BytesPerPixelQuarters(f) == 6 <==> f in Packed12Formats
    ensures BytesPerPixelQuarters(f) == 5 <==> f in Packed10Formats
    ensures BytesPerPixelQuarters(f) == 12 <==> f in ThreeByteFormats
    ensures BytesPerPixelQuarters(f) == 24 <==> f in SixByteFormats
    ensures BytesPerPixelQuarters(f) == 0 <==> !(0 <= f <= 34)
  {
  }

  /** The exact floor of `n / d`: Python's `int()` of a non-negative quotient. */
  function FloorDiv(n: nat, d: nat): (r: nat)
    requires d > 0
    ensures r * d <= n < (r + 1) * d
  {
    n / d
  }

  function Abs(x: int): nat {
    if x < 0 then -x else x
  }

  /** Python's `int()` of the exact quotient `n / d`, which truncates toward zero. */
  function TruncDiv(n: int, d: int): (r: int)
    requires d != 0
    ensures Abs(r) * Abs(d) <= Abs(n) < (Abs(r) + 1) * Abs(d)
    ensures r > 0 ==> (n > 0) == (d > 0)
    ensures r < 0 ==> (n > 0) != (d > 0)
  {
    var q := Abs(n) / Abs(d);
    if (n >= 0) == (d > 0) then q else -q
  }

  /**
   * `int((w / paX) * (h / paY) * bytesPerPixel)` for whole-number dimensions, with
   * the byte width in quarter bytes: the floor of `w * h * q / (paX * paY * 4)`.
   */
  function PixelBytes(w: nat, h: nat, paX: nat, paY: nat, q: nat): (r: Outcome<nat>)
    ensures r.Raised? <==> paX == 0 || paY == 0
    ensures r.Raised? ==> r.exc == ZeroDivisionError
    ensures r.Normal? ==> r.value * (paX * paY * 4) <= w * h * q < (r.value + 1) * (paX * paY * 4)
  {
    if paX == 0 || paY == 0 then Raised(ZeroDivisionError)
    else Normal(FloorDiv(w * h * q, paX * paY * 4))
  }

  /** The fields of a frame descriptor that `imageSize` reads. */
  datatype FrameDesc = FrameDesc(roiWidth: nat, roiHeight: nat, paHorizontal: nat, paVertical: nat, pixelFormat: int)

  /** `imageSize(frameDesc)`: the byte size of the frame the descriptor describes. */
  function ImageSize(fd: FrameDesc): (r: Outcome<nat>)
    ensures r.Raised? <==> fd.paHorizontal == 0 || fd.paVertical == 0
    ensures r.Normal? ==>
      var d := fd.paHorizontal * fd.paVertical * 4;
      var n := fd.roiWidth * fd.roiHeight * BytesPerPixelQuarters(fd.pixelFormat);
      r.value * d <= n < (r.value + 1) * d
    ensures r.Normal? && BytesPerPixelQuarters(fd.pixelFormat) == 0 ==> r.value == 0
  {
    PixelBytes(fd.roiWidth, fd.roiHeight, fd.paHorizontal, fd.paVertical, BytesPerPixelQuarters(fd.pixelFormat))
  }

  /** Without pixel addressing the size is the ROI area times the byte width, rounded down. */
  lemma ImageSizeUnitAddressing(fd: FrameDesc)
    requires fd.paHorizontal == 1 && fd.paVertical == 1
    ensures ImageSize(fd) == Normal(fd.roiWidth * fd.roiHeight * BytesPerPixelQuarters(fd.pixelFormat) / 4)
  {
  }

  // ---------------------------------------------------------------------------
  // Size-then-fill

  /** What a size-then-fill wrapper does, in order: native calls and allocations. */
  datatype Step = SizeQuery | Allocate(size: nat) | Fill(size: nat)

  /** The reply of the first call: its code and the size it reports. */
  datatype SizeReply = SizeReply(rc: int, size: nat)

  /** A wrapper's result together with the steps it took. */
  datatype Traced<+T> = Traced(result: Reply<T>, steps: seq<Step>)

  /** `buf` after the library writes `w` at its start, never past its end. */
  function Overlay<E>(buf: seq<E>, w: seq<E>): (r: seq<E>)
    ensures |r| == |buf|
    ensures forall i :: 0 <= i < |buf| ==> r[i] == if i < |w| then w[i] else buf[i]
  {
    if |w| <= |buf| then w + buf[|w|..] else w[..|buf|]
  }

  /**
   * The two-call pattern: ask for a size, allocate a zeroed buffer of exactly that
   * size, let the library fill it. `fill(n)` is the library's reply when it is handed
   * a buffer of `n` elements: its code and what it writes into the buffer.
   */
  function SizeThenFill<E>(first: SizeReply, zero: E, fill: nat -> NativeOut<seq<E>>): (t: Traced<seq<E>>)
    ensures t.result.WellShaped()
    ensures !ApiSuccess(first.rc) ==> t.result == Failed(first.rc) && t.steps == [SizeQuery]
    ensures ApiSuccess(first.rc) ==> t.steps == [SizeQuery, Allocate(first.size), Fill(first.size)]
    ensures ApiSuccess(first.rc) ==> t.result.rc == fill(first.size).rc
    ensures t.result.Succeeded? ==>
      && |t.result.value| == first.size
      && t.result.value == Overlay(seq(first.size, _ => zero), fill(first.size).out)
  {
    if !ApiSuccess(first.rc) then
      Traced(Failed(first.rc), [SizeQuery])
    else
      var n := first.size;
      var reply := fill(n);
      Traced(Shape(reply.rc, Overlay(seq(n, _ => zero), reply.out)), [SizeQuery, Allocate(n), Fill(n)])
  }

  /** `formatImage(srcImage, srcFrameDesc, outputFormat)`: the encoded image in a fresh byte buffer. */
  function FormatImage(first: SizeReply, fill: nat -> NativeOut<seq<bv8>>): (t: Traced<seq<bv8>>)
    ensures t.result.WellShaped()
    ensures !ApiSuccess(first.rc) ==> t.result == Failed(first.rc) && t.steps == [SizeQuery]
    ensures ApiSuccess(first.rc) ==> t.steps == [SizeQuery, Allocate(first.size), Fill(first.size)]
    ensures ApiSuccess(first.rc) ==> t.result.rc == fill(first.size).rc
    ensures t.result.Succeeded? ==>
      && |t.result.value| == first.size
      && t.result.value == Overlay(seq(first.size, _ => 0), fill(first.size).out)
  {
    SizeThenFill(first, 0, fill)
  }

  /** `getCameraFeatures(hCamera, featureId)`: the feature list in a fresh `c_uint` array. */
  function GetCameraFeatures(first: SizeReply, fill: nat -> NativeOut<seq<bv32>>): (t: Traced<seq<bv32>>)
    ensures t.result.WellShaped()
    ensures !ApiSuccess(first.rc) ==> t.result == Failed(first.rc) && t.steps == [SizeQuery]
    ensures ApiSuccess(first.rc) ==> t.steps == [SizeQuery, Allocate(first.size), Fill(first.size)]
    ensures ApiSuccess(first.rc) ==> t.result.rc == fill(first.size).rc
    ensures t.result.Succeeded? ==>
      && |t.result.value| == first.size
      && t.result.value == Overlay(seq(first.size, _ => 0), fill(first.size).out)
  {
    SizeThenFill(first, 0, fill)
  }

  /** `getCameraXml(hCamera)`: the camera's XML text in a fresh byte buffer. */
  function GetCameraXml(first: SizeReply, fill: nat -> NativeOut<seq<bv8>>): (t: Traced<seq<bv8>>)
    ensures t.result.WellShaped()
    ensures !ApiSuccess(first.rc) ==> t.result == Failed(first.rc) && t.steps == [SizeQuery]
    ensures ApiSuccess(first.rc) ==> t.steps == [SizeQuery, Allocate(first.size), Fill(first.size)]
    ensures ApiSuccess(first.rc) ==> t.result.rc == fill(first.size).rc
    ensures t.result.Succeeded? ==>
      && |t.result.value| == first.size
      && t.result.value == Overlay(seq(first.size, _ => 0), fill(first.size).out)
  {
    SizeThenFill(first, 0, fill)
  }

  // ---------------------------------------------------------------------------
  // getFeature and setFeature

  /** A feature's flags and parameter values, as `getFeature` returns them. */
  datatype Feature = Feature(flags: bv32, params: seq<int>)

  /** The reply of `getFeature`'s first native call: code, flags and parameter count. */
  datatype FeatureCount = FeatureCount(rc: int, flags: bv32, numParams: nat)

  /** The parameter buffer `getFeature` hands to the library: zeros, `params[0]` first when given. */
  function SentParams(n: nat, params: Option<seq<int>>): (b: seq<int>)
    requires params.Some? ==> n > 0 && |params.value| > 0
    ensures |b| == n
    ensures forall i :: 0 <= i < n ==> b[i] == if i == 0 && params.Some? then params.value[0] else 0
  {
    if params.Some? then [params.value[0]] + seq(n - 1, _ => 0) else seq(n, _ => 0)
  }

  /**
   * `getFeature(hCamera, featureId, params)`. `first` replies to the parameter-count
   * query; `second(b)` is the library's reply when handed parameter buffer `b`: its
   * code, the flags it writes, and the values it writes into the buffer.
   */
  method GetFeature(params: Option<seq<int>>, first: FeatureCount, second: seq<int> -> NativeOut<Feature>)
    returns (r: Outcome<Reply<Feature>>, steps: seq<Step>)
    ensures !ApiSuccess(first.rc) ==> r == Normal(Failed(first.rc)) && steps == [SizeQuery]
    ensures ApiSuccess(first.rc) && params.Some? && (|params.value| == 0 || first.numParams == 0) ==>
      r == Raised(IndexError) && steps == [SizeQuery, Allocate(first.numParams)]
    ensures r.Normal? ==> r.value.WellShaped()
    ensures r.Raised? ==> r.exc == IndexError && params.Some? && ApiSuccess(first.rc)
    ensures r.Raised? ==> |params.value| == 0 || first.numParams == 0
    ensures ApiSuccess(first.rc) && r.Normal? ==>
      && steps == [SizeQuery, Allocate(first.numParams), Fill(first.numParams)]
      && var sent := SentParams(first.numParams, params);
         var reply := second(sent);
         && r.value.rc == reply.rc
         && (r.value.Succeeded? ==>
              && r.value.value.flags == reply.out.flags
              && |r.value.value.params| == first.numParams
              && r.value.value.params == Overlay(sent, reply.out.params))
  {
    if !ApiSuccess(first.rc) {
      return Normal(Failed(first.rc)), [SizeQuery];
    }
    var n := first.numParams;
    var ctaParams := new int[n](_ => 0);
    steps := [SizeQuery, Allocate(n)];
    if params.Some? {
      if |params.value| == 0 || n == 0 {
        return Raised(IndexError), steps;
      }
      ctaParams[0] := params.value[0];
    }
    assert ctaParams[..] == SentParams(n, params);
    var reply := second(ctaParams[..]);
    steps := steps + [Fill(n)];
    if !ApiSuccess(reply.rc) {
      return Normal(Failed(reply.rc)), steps;
    }
    // The library writes its values into the buffer it was handed.
    var written := Overlay(ctaParams[..], reply.out.params);
    forall i | 0 <= i < n {
      ctaParams[i] := written[i];
    }
    var list: seq<int> := [];
    for i := 0 to n
      invariant list == ctaParams[..i]
    {
      list := list + [ctaParams[i]];
    }
    assert list == ctaParams[..];
    r := Normal(Succeeded(reply.rc, Feature(reply.out.flags, list)));
  }

  /** The arguments `setFeature` hands to the native `PxLSetFeature`. */
  datatype SetFeatureRequest = SetFeatureRequest(featureId: int, flags: bv32, numParams: nat, params: seq<int>)

  /** `setFeature(hCamera, featureId, flags, params)`: the count is `len(params)` and every value is copied in order. */
  method SetFeature(featureId: int, flags: bv32, params: seq<int>, native: SetFeatureRequest -> int)
    returns (rc: int, sent: SetFeatureRequest)
    ensures sent.featureId == featureId && sent.flags == flags
    ensures sent.numParams == |params| && |sent.params| == |params|
    ensures forall i :: 0 <= i < |params| ==> sent.params[i] == params[i]
    ensures rc == native(sent)
  {
    var n := |params|;
    var ctaParams := new int[n](_ => 0);
    for i := 0 to n
      invariant forall k :: 0 <= k < i ==> ctaParams[k] == params[k]
    {
      if i > n - 1 {
        break;
      }
      ctaParams[i] := params[i];
    }
    sent := SetFeatureRequest(featureId, flags, n, ctaParams[..]);
    rc := native(sent);
  }

  // ---------------------------------------------------------------------------
  // setCameraIpAddress

  /** `src` copied into a zeroed array of `cap` bytes, dropping what does not fit. */
  function Bounded(src: seq<bv8>, cap: nat): (r: seq<bv8>)
    ensures |r| == cap
    ensures forall i :: 0 <= i < cap ==> r[i] == if i < |src| then src[i] else 0
  {
    Overlay(seq(cap, _ => 0), src)
  }

  /** One of the index loops of `setCameraIpAddress`: copy until `dst` is full. */
  method CopyBounded(dst: array<bv8>, src: seq<bv8>)
    requires forall i :: 0 <= i < dst.Length ==> dst[i] == 0
    modifies dst
    ensures dst[..] == Bounded(src, dst.Length)
  {
    for i := 0 to |src|
      invariant forall k :: 0 <= k < dst.Length ==> dst[k] == if k < i && k < |src| then src[k] else 0
    {
      if i > dst.Length - 1 {
        break;
      }
      dst[i] := src[i];
    }
  }

  /** The MAC, IP, mask, gateway and persistence flag handed to `PxLSetCameraIpAddress`. */
  datatype IpRequest = IpRequest(mac: seq<bv8>, ip: seq<bv8>, mask: seq<bv8>, gateway: seq<bv8>, persistent: bool)

  /** `setCameraIpAddress`: at most 6 MAC bytes and 4 bytes of each address are sent; missing bytes are 0. */
  method SetCameraIpAddress(cameraMac: seq<bv8>, cameraIp: seq<bv8>, cameraSubnetMask: seq<bv8>,
                            cameraDefaultGateway: seq<bv8>, persistent: bool, native: IpRequest -> int)
    returns (rc: int, sent: IpRequest)
    ensures |sent.mac| == 6 && |sent.ip| == 4 && |sent.mask| == 4 && |sent.gateway| == 4
    ensures sent.mac == Bounded(cameraMac, 6) && sent.ip == Bounded(cameraIp, 4)
    ensures sent.mask == Bounded(cameraSubnetMask, 4) && sent.gateway == Bounded(cameraDefaultGateway, 4)
    ensures sent.persistent == persistent
    ensures rc == native(sent)
  {
    var mac := new bv8[6](_ => 0);
    var ip := new bv8[4](_ => 0);
    var mask := new bv8[4](_ => 0);
    var gateway := new bv8[4](_ => 0);
    CopyBounded(mac, cameraMac);
    CopyBounded(ip, cameraIp);
    CopyBounded(mask, cameraSubnetMask);
    CopyBounded(gateway, cameraDefaultGateway);
    sent := IpRequest(mac[..], ip[..], mask[..], gateway[..], persistent);
    rc := native(sent);
  }

  // ---------------------------------------------------------------------------
  // getNumberCameras

  /** The fields of `_CameraIdInfo` that the modelled code reads or writes. */
  datatype CameraIdInfo = CameraIdInfo(structSize: nat, cameraSerialNum: int, cameraMac: seq<bv8>,
                                       nicIpAddress: seq<bv8>, nicIpMask: seq<bv8>)

  /** A zero-initialised `_CameraIdInfo`, as a fresh ctypes array holds it. */
  const EmptyCameraIdInfo := CameraIdInfo(0, 0, [0, 0, 0, 0, 0, 0], [0, 0, 0, 0], [0, 0, 0, 0])

  /**
   * `sizeof(_CameraIdInfo)`: two 4-byte words, the 6-byte MAC padded to 8, five 4-byte
   * addresses, a 4-byte word, eight single bytes, one more address and a final word.
   */
  const CameraIdInfoSize: nat := 4 + 4 + 8 + 5 * 4 + 4 + 8 + 4 + 4

  /**
   * `getNumberCameras()` as written. `fill(b)` is the library's reply when handed the
   * array `b`: its code and the records it writes. With no camera the write of
   * `StructSize` into element 0 of an empty array raises IndexError.
   */
  method GetNumberCameras(first: SizeReply, fill: seq<CameraIdInfo> -> NativeOut<seq<CameraIdInfo>>)
    returns (r: Outcome<Reply<seq<CameraIdInfo>>>, steps: seq<Step>)
    ensures !ApiSuccess(first.rc) ==> r == Normal(Failed(first.rc)) && steps == [SizeQuery]
    ensures ApiSuccess(first.rc) && first.size == 0 ==> r == Raised(IndexError)
    ensures r.Normal? ==> r.value.WellShaped()
    ensures ApiSuccess(first.rc) && first.size > 0 ==>
      && steps == [SizeQuery, Allocate(first.size), Fill(first.size)]
      && var sent := [EmptyCameraIdInfo.(structSize := CameraIdInfoSize)] + seq(first.size - 1, _ => EmptyCameraIdInfo);
         var reply := fill(sent);
         && r.Normal? && r.value.rc == reply.rc
         && (r.value.Succeeded? ==> r.value.value == Overlay(sent, reply.out))
  {
    if !ApiSuccess(first.rc) {
      return Normal(Failed(first.rc)), [SizeQuery];
    }
    var n := first.size;
    var cta := new CameraIdInfo[n](_ => EmptyCameraIdInfo);
    steps := [SizeQuery, Allocate(n)];
    if n == 0 {
      return Raised(IndexError), steps;
    }
    cta[0] := cta[0].(structSize := CameraIdInfoSize);
    assert cta[..] == [EmptyCameraIdInfo.(structSize := CameraIdInfoSize)] + seq(n - 1, _ => EmptyCameraIdInfo);
    r, steps := FillAndList(cta, fill, steps);
  }

  /**
   * `getNumberCameras()` with the `StructSize` write guarded by a non-empty array:
   * no camera gives the second call's code and an empty list instead of IndexError.
   */
  method GetNumberCamerasGuarded(first: SizeReply, fill: seq<CameraIdInfo> -> NativeOut<seq<CameraIdInfo>>)
    returns (r: Reply<seq<CameraIdInfo>>, steps: seq<Step>)
    ensures r.WellShaped()
    ensures !ApiSuccess(first.rc) ==> r == Failed(first.rc) && steps == [SizeQuery]
    ensures ApiSuccess(first.rc) ==>
      && steps == [SizeQuery, Allocate(first.size), Fill(first.size)]
      && var sent := if first.size == 0 then []
                     else [EmptyCameraIdInfo.(structSize := CameraIdInfoSize)] + seq(first.size - 1, _ => EmptyCameraIdInfo);
         var reply := fill(sent);
         && r.rc == reply.rc
         && (r.Succeeded? ==> r.value == Overlay(sent, reply.out) && |r.value| == first.size)
  {
    if !ApiSuccess(first.rc) {
      return Failed(first.rc), [SizeQuery];
    }
    var n := first.size;
    var cta := new CameraIdInfo[n](_ => EmptyCameraIdInfo);
    steps := [SizeQuery, Allocate(n)];
    if n > 0 {
      cta[0] := cta[0].(structSize := CameraIdInfoSize);
      assert cta[..] == [EmptyCameraIdInfo.(structSize := CameraIdInfoSize)] + seq(n - 1, _ => EmptyCameraIdInfo);
    }
    var o;
    o, steps := FillAndList(cta, fill, steps);
    r := o.value;
  }

  /** The second call and the copy loop shared by the enumeration wrappers. */
  method FillAndList<T>(cta: array<T>, fill: seq<T> -> NativeOut<seq<T>>, steps0: seq<Step>)
    returns (r: Outcome<Reply<seq<T>>>, steps: seq<Step>)
    modifies cta
    ensures steps == steps0 + [Fill(cta.Length)]
    ensures r.Normal? && r.value.WellShaped()
    ensures r.value.rc == fill(old(cta[..])).rc
    ensures r.value.Succeeded? ==> r.value.value == Overlay(old(cta[..]), fill(old(cta[..])).out)
  {
    var n := cta.Length;
    var sent := cta[..];
    var reply := fill(sent);
    steps := steps0 + [Fill(n)];
    if !ApiSuccess(reply.rc) {
      return Normal(Failed(reply.rc)), steps;
    }
    var written := Overlay(sent, reply.out);
    forall i | 0 <= i < n {
      cta[i] := written[i];
    }
    var list: seq<T> := [];
    for i := 0 to n
      invariant list == cta[..i]
    {
      list := list + [cta[i]];
    }
    assert list == written;
    r := Normal(Succeeded(reply.rc, list));
  }

  // ---------------------------------------------------------------------------
  // The structure view of `getCameraFeatures`' buffer, as the samples read it

  /** One parameter's limits. */
  datatype FeatureParam = FeatureParam(minValue: int, maxValue: int)

  /** One `_CameraFeature`; `uNumberOfParameters` is `|params|`. */
  datatype CameraFeature = CameraFeature(featureId: int, flags: bv32, params: seq<FeatureParam>)

  /** `_CameraFeatures`; `uNumberOfFeatures` is `|features|`. */
  datatype CameraFeatures = CameraFeatures(features: seq<CameraFeature>)
}

# Pixelink Python wrapper: a Dafny model of its host-side logic

The Pixelink Python wrapper (`pixelinkWrapper/pixelink.py`) binds the Pixelink 4.0 camera API.
Almost every call passes straight through to the vendor's native library, so this model covers
the logic that runs on the host, in the wrapper and in the helper functions of the sample programs:

- the return-code and result-tuple conventions;
- the "size-then-fill" wrappers;
- the byte-width table and image-size arithmetic;
- the bounded copies into fixed-size arrays;
- the command-line parsers of the clip and commit samples;
- the small decision rules and polling loops of the samples: retrying, triggering, PTP,
  subnet matching, GPIO, HDR, polar weights, and the feature decoders.

The native library is an oracle throughout:

- A native call's first reply (a code and a size or count) is a parameter value.
- A call that receives a buffer from the wrapper is a total function from what the wrapper hands
  over to the code and the data the library writes.
- A polling loop without a bound of its own is given the finite sequence of replies it receives.

Python's result tuples are the datatype `PxLApi.Reply`: `(rc,)` is `Failed` and `(rc, values...)` is
`Succeeded`. Python exceptions that the code lets escape are the datatype `Outcomes.Outcome`:
`IndexError`, `ZeroDivisionError`, `TypeError`, `ValueError`, and a failed `assert`.
Feature parameters are integers. Bytes per pixel are counted in quarter bytes: 1.25 bytes is 5 and
1.5 bytes is 6. `int()` of a quotient is the exact truncation of the rational value.

Module layout, one module per source file:

| module | source |
|---|---|
| `Outcomes` | Python results: a value or a raised exception |
| `ReturnCode`, `FeatureFlags`, `FeatureId`, `PixelFormat`, ... (`pixelink_defines.dfy`) | the constant classes of `pixelink.py` |
| `PxLApi` (`pixelink.dfy`) | the wrapper functions of `pixelink.py` |
| `PyInt` | Python's `int(str)` and `str(int)` on command-line arguments, for ASCII digits |
| `ClipOptions` | the argv grammar shared by the two clip samples |
| `SlowMotionVideo`, `FastMotionVideo` | the clip samples' option globals and `get_parameters` |
| `CommitSettingsAsDefault`, `GetNextFrame`, `Callback`, `GetCompressedImage`, `GetSnapshot`, `GetHdrSnapshot`, `GetPolarSnapshot`, `Triggering`, `PtpV2`, `SetIpAddress`, `GpioSample`, `GetCameraFeature`, `GetFeatureSample` | the sample of the same name |

## Model

| member | source | states |
|---|---|---|
| PxLApi.ReturnCodesClassified | pixelinkWrapper/pixelink.py:546-630 | The twelve success codes are exactly 0..11 in declaration order, so `apiSuccess` accepts each of them. All 72 error codes are negative, so `apiSuccess` rejects each of them. |
| PxLApi.Shape | pixelinkWrapper/pixelink.py:981-986 | The common tail of the wrappers: the result is `(rc,)` exactly when `apiSuccess(rc)` fails. Otherwise it is `(rc, value)` with the value the library produced. |
| PxLApi.Initialize | pixelinkWrapper/pixelink.py:1237-1242 | The result has the native return code. It carries the camera handle exactly when that code is a success. |
| PxLApi.CreateDescriptor | pixelinkWrapper/pixelink.py:981-986 | The result has the native return code. It carries the descriptor handle exactly when that code is a success. |
| PxLApi.GetCurrentTimestamp | pixelinkWrapper/pixelink.py:1115-1120 | The result has the native return code. It carries the camera clock value exactly when that code is a success. |
| PxLApi.SetPreviewState | pixelinkWrapper/pixelink.py:1342-1347 | The result has the native return code. It carries the window handle exactly when that code is a success. |
| PxLApi.BytesPerPixelValues | pixelinkWrapper/pixelink.py:1027-1073 | Each format class has its byte width: 1 for mono8/bayer8, 2 for 16-bit and YUV422, 1.5 for 12-bit packed, 1.25 for 10-bit packed, 3 for 24-bit colour, and 6 for 48-bit colour and polar. An integer outside the table has width 0, and every value in the table has a non-zero width. |
| PxLApi.FloorDiv | pixelinkWrapper/pixelink.py:1232-1235 | Python's `int()` of a non-negative quotient: the largest `r` with `r*d <= n`. |
| PxLApi.TruncDiv | pixelinkWrapper/pixelink.py:1232-1235 | Python's `int()` of a signed quotient: it truncates toward zero. Its magnitude is the floor of the magnitudes, and its sign is the quotient's sign. |
| PxLApi.PixelBytes | pixelinkWrapper/pixelink.py:1232-1235 | `int((w/paX)*(h/paY)*bpp)` raises ZeroDivisionError exactly when an addressing value is 0. Otherwise it is the floor of the exact product. |
| PxLApi.ImageSize | pixelinkWrapper/pixelink.py:1232-1235 | `imageSize` is the floor of ROI area × bytes per pixel ÷ pixel addressing. It raises exactly when an addressing value is 0. It is 0 for a format outside the table. |
| PxLApi.ImageSizeUnitAddressing | pixelinkWrapper/pixelink.py:1232-1235 | With 1×1 addressing the size is the ROI area times the byte width, rounded down. |
| PxLApi.Overlay | pixelinkWrapper/pixelink.py:1155-1162 | A native write into a buffer keeps the buffer's length. It changes a prefix and never writes past the end. |
| PxLApi.SizeThenFill | pixelinkWrapper/pixelink.py:1004-1012 | The two-call pattern. A failed first call gives `(rc,)` with no allocation and no second call. Otherwise a zeroed buffer of exactly the reported size is allocated and filled. The result has the second call's code and, on success, that buffer. |
| PxLApi.FormatImage | pixelinkWrapper/pixelink.py:997-1012 | `formatImage` follows the two-call pattern. A failed size call gives its `(rc,)` with no second call. Otherwise the code is the second call's, and on success the image is a zeroed buffer of exactly the reported size overlaid with what the library wrote. |
| PxLApi.GetCameraFeatures | pixelinkWrapper/pixelink.py:1075-1085 | `getCameraFeatures` follows the two-call pattern over a `c_uint` array. The code after a successful size call is the second call's, and on success the array is a zeroed one of the reported size overlaid with what the library wrote. |
| PxLApi.GetCameraXml | pixelinkWrapper/pixelink.py:1095-1104 | `getCameraXml` follows the two-call pattern over a byte buffer. The code after a successful size call is the second call's, and on success the text is a zeroed buffer of the reported size overlaid with what the library wrote. |
| PxLApi.SentParams | pixelinkWrapper/pixelink.py:1150-1153 | The buffer handed to the second native call has the reported parameter count. When `params` is given, only `params[0]` is copied into it; every other entry is 0. |
| PxLApi.GetFeature | pixelinkWrapper/pixelink.py:1138-1163 | A failed count query gives `(rc,)` after one call. A `params` argument that is empty, or a count of 0, raises IndexError at `ctaParams[0] = params[0]`. Otherwise the result has the second call's code. On success it has that call's flags and a list whose length is the reported count, holding what the library wrote over the sent buffer. |
| PxLApi.SetFeature | pixelinkWrapper/pixelink.py:1319-1327 | `setFeature` passes the feature id, the flags and `len(params)` as the count, and copies every element of `params` in order. The returned code is the native one. |
| PxLApi.Bounded | pixelinkWrapper/pixelink.py:1282-1297 | A copy into a zeroed fixed-size array keeps the first `cap` bytes of the source. Bytes that are not supplied stay 0. |
| PxLApi.CopyBounded | pixelinkWrapper/pixelink.py:1282-1297 | One of the index loops with `break` at capacity: the array ends up holding exactly the bounded copy of the source. |
| PxLApi.SetCameraIpAddress | pixelinkWrapper/pixelink.py:1277-1299 | The library receives the first 6 MAC bytes and the first 4 bytes of each of the IP, mask and gateway. Extra input is ignored, missing bytes are 0, and the persistence flag is passed unchanged. |
| PxLApi.GetNumberCameras | pixelinkWrapper/pixelink.py:1190-1210 | As written. A failed count query gives `(rc,)`. A count of 0 raises IndexError at the `StructSize` write into element 0. Otherwise element 0 of the sent array carries the structure size, and the list returned is what the library wrote into that array. |
| PxLApi.GetNumberCamerasGuarded | pixelinkWrapper/pixelink.py:1190-1210 | The corrected enumeration: it never raises. With no camera the result is the second call's code with an empty list; otherwise it behaves as written, and the list has exactly the reported count. |
| PxLApi.FillAndList | pixelinkWrapper/pixelink.py:1203-1209 | The second call and the append loop: the list returned is the array as the library left it, and the code is the native one. |
| PyInt.Strip | samples/Windows/slowMotionVideo.py:59 | `int()` ignores whitespace on either side: TAB..CR, space and the non-ASCII whitespace of `str.isspace`, but not the separators U+001C..U+001F. What remains is no longer than the argument, and it neither starts nor ends with whitespace. |
| PyInt.StripPadded | samples/Windows/slowMotionVideo.py:59 | Whitespace (TAB..CR, space and the non-ASCII spaces, never U+001C..U+001F) on either side of a text whose ends are not whitespace is removed, and nothing else. |
| PyInt.Ungroup | samples/Windows/slowMotionVideo.py:59 | Removing the underscores of a digit literal never lengthens it. |
| PyInt.UngroupDigits | samples/Windows/slowMotionVideo.py:59 | Removing the underscores from digits and underscores leaves digits, keeps at least one digit after a leading one, and leaves plain digits unchanged. |
| PyInt.GroupedShape | samples/Windows/slowMotionVideo.py:59 | A digit literal starts and ends with a digit and holds only digits and underscores. |
| PyInt.MoreDigitsShape | samples/Windows/slowMotionVideo.py:59 | The tail of a digit literal ends with a digit and holds only digits and underscores. |
| PyInt.DigitsAreGrouped | samples/Windows/slowMotionVideo.py:59 | A non-empty run of plain digits is a digit literal. |
| PyInt.Parse | samples/Windows/slowMotionVideo.py:59 | `int(s)` of an argument that is blank after stripping raises ValueError. A value it accepts comes from a non-blank argument, and a negative value from one that starts with `-`. |
| PyInt.ParseLiteral | samples/Windows/slowMotionVideo.py:59 | Every literal is accepted: whitespace, an optional sign, a digit literal with single underscores between digits, and whitespace give the literal's value, negated after `-`. |
| PyInt.ParseGrouped | samples/Windows/slowMotionVideo.py:59 | A bare digit literal is read as its value. |
| PyInt.ParseSigned | samples/Windows/slowMotionVideo.py:59 | A sign directly followed by a digit literal is read as the literal's value, negated after `-`. |
| PyInt.UnderscoreGroups | samples/Windows/slowMotionVideo.py:59 | `int("1_000")` is 1000. |
| PyInt.UnderscoreMisplaced | samples/Windows/slowMotionVideo.py:59 | A doubled underscore, or one at the start, at the end or right after the sign, raises ValueError. |
| PyInt.DecimalNat | samples/Windows/slowMotionVideo.py:59 | The decimal spelling of a natural number is non-empty and made of digits. |
| PyInt.DigitsValueOfDecimal | samples/Windows/slowMotionVideo.py:59 | Reading the decimal spelling of `n` gives back `n`. |
| PyInt.ParseDecimal | samples/Windows/slowMotionVideo.py:59 | `int(str(n)) == n` for every integer, the negative ones included. |
| PyInt.FlagIsNotANumber | samples/Windows/slowMotionVideo.py:59 | An option flag such as `-t` is not a number, so passing one where a value is expected raises ValueError. |
| PyInt.StripKeepsFirst | samples/Windows/slowMotionVideo.py:59 | Stripping keeps a first character that is not whitespace. |
| PyInt.StripKeepsLast | samples/Windows/slowMotionVideo.py:59 | Stripping keeps a last character that is not whitespace. |
| PyInt.GroupedEndsInDigit | samples/Windows/slowMotionVideo.py:59 | A digit literal ends with a digit. |
| PyInt.SeparatorsNotStripped | samples/Windows/slowMotionVideo.py:59 | An argument that starts or ends with FS, GS, RS or US (U+001C..U+001F) raises ValueError, as `int("\x1c5")` does: `int()` strips only ASCII TAB..CR and space among the ASCII characters. |
| ClipOptions.Lookup | samples/Windows/slowMotionVideo.py:55-78 | An argument is matched to the first option whose lower- or upper-case flag it equals, and to none when no flag matches. |
| ClipOptions.PairsStep | samples/Windows/slowMotionVideo.py:55-78 | One step of the scan. An unknown flag stops with GENERAL_ERROR, a non-numeric value raises ValueError, and a value below the option's minimum stops with GENERAL_ERROR. Otherwise the value is stored and the scan moves two positions on. |
| ClipOptions.Parse | samples/Windows/slowMotionVideo.py:36-86 | Fewer than 2 or more than 8 arguments give GENERAL_ERROR with nothing changed. The only outcomes are A_OK, GENERAL_ERROR and ValueError. The file name changes only on A_OK. |
| ClipOptions.PairsDone | samples/Windows/slowMotionVideo.py:55-78 | The scan of the pairs completes exactly when every pair it visits has a known flag and a numeric value at or above that option's minimum. |
| ClipOptions.PairsEndAt | samples/Windows/slowMotionVideo.py:55-78 | The first invalid pair after valid ones ends the scan: with ValueError when the option is known and its value is no integer, with GENERAL_ERROR otherwise. |
| ClipOptions.PairsKeep | samples/Windows/slowMotionVideo.py:55-78 | An option that no pair names keeps its previous value. |
| ClipOptions.PairsLastWins | samples/Windows/slowMotionVideo.py:55-78 | An option named more than once ends with the value of its last occurrence. |
| ClipOptions.ParseAccepts | samples/Windows/slowMotionVideo.py:36-86 | `get_parameters` returns A_OK exactly when there are 2 to 8 arguments, every pair is valid and the last argument is not `-`. |
| ClipOptions.ParseSettings | samples/Windows/slowMotionVideo.py:80-86 | On A_OK the file name is the last argument, and every option not supplied keeps its default. |
| ClipOptions.ParseLastWins | samples/Windows/slowMotionVideo.py:55-78 | On A_OK an option supplied several times holds the value given last. |
| ClipOptions.ParseValueDoublesAsFileName | samples/Windows/slowMotionVideo.py:47-86 | With an even number of arguments after the program name, the last value is also taken as the file name. |
| ClipOptions.ParseUnknownOption | samples/Windows/slowMotionVideo.py:77-78 | A pair with an unknown flag, reached after valid pairs, gives GENERAL_ERROR. |
| ClipOptions.ParseBelowMinimum | samples/Windows/slowMotionVideo.py:56-76 | A value below its option's minimum, reached after valid pairs, gives GENERAL_ERROR. |
| ClipOptions.ParseNotANumber | samples/Windows/slowMotionVideo.py:59 | A non-numeric value, reached after valid pairs, raises ValueError. |
| ClipOptions.PairsKeepMinimums | samples/Windows/slowMotionVideo.py:55-78 | Every value the scan stores is at or above its option's minimum, so the scan keeps that invariant. |
| ClipOptions.ParseKeepsMinimums | samples/Windows/slowMotionVideo.py:36-86 | Whatever the outcome, the parser never leaves a setting below its minimum, because values stored before an error stay stored and are all valid. |
| SlowMotionVideo.LookupTable | samples/Windows/slowMotionVideo.py:55-78 | The flags are `-t/-T` for the record time, `-b/-B` for the bit rate and `-f/-F` for the frame rate. Any other argument is unknown. |
| SlowMotionVideo.Options.constructor | samples/Windows/slowMotionVideo.py:31-33 | The defaults are 20 s record time, a bit rate of BITRATE_DEFAULT/3, 25 fps and no file name. |
| SlowMotionVideo.Options.Snapshot | samples/Windows/slowMotionVideo.py:31-33 | The globals as one settings record, in table order. |
| SlowMotionVideo.Options.ScanPair | samples/Windows/slowMotionVideo.py:56-77 | One pass of the loop body: a recognised option with a large enough integer value is stored and the scan goes on as the grammar does from the next pair; otherwise it returns the grammar's GENERAL_ERROR or raises its ValueError. |
| SlowMotionVideo.Options.GetParameters | samples/Windows/slowMotionVideo.py:36-86 | The argv loop returns what the grammar prescribes and leaves the globals as it prescribes, starting from their values before the call. |
| SlowMotionVideo.ExampleRecordTime | samples/Windows/slowMotionVideo.py:36-86 | `-t 30 clip.h264` sets a 30 s record time and the file name. The bit rate and frame rate keep their defaults. |
| SlowMotionVideo.OptionsStayAboveMinimums | samples/Windows/slowMotionVideo.py:269-280 | From the defaults, any command line leaves the record time at least 1, the bit rate at least 1000 and the frame rate at least 1. |
| FastMotionVideo.LookupTable | samples/Windows/fastMotionVideo.py:46-69 | The flags are `-t/-T` for the record time, `-d/-D` for the decimation and `-f/-F` for the frame rate. Any other argument is unknown. |
| FastMotionVideo.Options.constructor | samples/Windows/fastMotionVideo.py:24-26 | The defaults are 300 s, decimation 5, 25 fps and no file name. |
| FastMotionVideo.Options.Snapshot | samples/Windows/fastMotionVideo.py:24-26 | The globals as one settings record, in table order. |
| FastMotionVideo.Options.ScanPair | samples/Windows/fastMotionVideo.py:47-69 | One pass of the loop body, as in the slow-motion sample with `-d` for the decimation. |
| FastMotionVideo.Options.GetParameters | samples/Windows/fastMotionVideo.py:29-77 | The argv loop returns what the grammar prescribes and leaves the globals as it prescribes. |
| FastMotionVideo.ExampleRecordTime | samples/Windows/fastMotionVideo.py:29-77 | `-t 30 clip.h264` sets a 30 s record time and the file name. The decimation and frame rate keep their defaults. |
| FastMotionVideo.OptionsStayAboveMinimums | samples/Windows/fastMotionVideo.py:242-253 | From the defaults, any command line leaves all three settings at least 1. |
| CommitSettingsAsDefault.RunOptions | samples/Linux/commitSettingsAsDefault.py:65-78 | The result is 1 exactly when there is a first argument other than `-f`/`-F`, and then the option is unchanged. With `-f`/`-F` the option becomes True; with no argument it is unchanged. |
| CommitSettingsAsDefault.RunOptionsIdempotent | samples/Linux/commitSettingsAsDefault.py:65-78 | Running the parser twice on the same argv gives what running it once gives. |
| CommitSettingsAsDefault.RunOptionsReadsOnlyFirst | samples/Linux/commitSettingsAsDefault.py:71-78 | Only `argv[1]` is examined: arguments after it change nothing. |
| CommitSettingsAsDefault.RunOptionState.constructor | samples/Linux/commitSettingsAsDefault.py:108-111 | The global option starts as False. |
| CommitSettingsAsDefault.RunOptionState.SetRunOptions | samples/Linux/commitSettingsAsDefault.py:65-78 | The code returned and the new value of the global are those the decision rule gives for the old value. |
| GetNextFrame.GetNextFrameRetrying | samples/Linux/getNextFrame.py:20-38 | At most `maxNumberOfTries` calls are made. With none, the result is `(ApiUnknownError,)`; otherwise it is the last call's reply. Every earlier reply was neither a success, a stopped stream nor a missing camera. Stopping early means the last reply was one of those three. |
| Callback.PixelFormatName | samples/Linux/callback.py:13-51 | A format value gets a name other than "Unknown data format" exactly when it is one of 0..34. |
| Callback.NamesDistinct | samples/Linux/callback.py:13-51 | Two different named format values never share a name. |
| Callback.PixelFormatNameKnown | samples/Linux/callback.py:13-51 | A format value has a name exactly when it is one of 0..34, and these are exactly the values with a non-zero byte width. All other values are "Unknown data format". |
| Callback.TwoFifths | samples/Linux/callback.py:77-80 | `int(n * 2/5)`: the floor of two fifths. |
| Callback.ThreeFifths | samples/Linux/callback.py:77-80 | `int(n * 3/5)`: the floor of three fifths. |
| Callback.PixelWithinImage | samples/Linux/callback.py:83-92 | Every byte of every pixel inside the image lies inside a buffer of width × height × bpp bytes. |
| Callback.FillPixel | samples/Linux/callback.py:89-91 | The inner byte loop sets the bpp bytes of one pixel to 0xff and leaves every other byte unchanged. |
| Callback.FillRow | samples/Linux/callback.py:87-92 | One row of the rectangle: the contiguous bytes from the first column's offset to the last column's end are 0xff, and nothing else changes. |
| Callback.RowBytes | samples/Linux/callback.py:85-92 | A row's span starts at `bpp*(row*width + startCol)`, advances by bpp per pixel, and ends inside the image. |
| Callback.RowSpanInRect | samples/Linux/callback.py:85-92 | Each written byte of a row belongs to the rectangle's pixel at that row and column. |
| Callback.InRectRowSpan | samples/Linux/callback.py:85-92 | Each byte of the rectangle within a row lies in that row's written span. |
| Callback.FillRectRow | samples/Linux/callback.py:85-92 | One pass of the row loop: exactly the bytes of the rectangle's pixels in that row become 0xff, and every other byte is unchanged. |
| Callback.CallbackFormatPreview | samples/Linux/callback.py:58-94 | On return 0, exactly the bytes of pixels in rows ⌊2h/5⌋..⌊3h/5⌋−1 and columns ⌊2w/5⌋..⌊3w/5⌋−1 are 0xff, and every other byte is unchanged. A fractional byte width with a non-empty rectangle raises TypeError (it hits a float `range`) before anything is written. |
| GetCompressedImage.AcceptedFormatsAreOneByte | samples/Linux/getCompressedImage.py:19-29 | MONO8 and the four BAYER8 orders are exactly the one-byte formats of the byte-width table. |
| GetCompressedImage.HdrMultiplier | samples/Linux/getCompressedImage.py:51-60 | The width multiplier is 2 exactly when GAIN_HDR reads INTERLEAVED. A failed query leaves it at 1, and a successful query with no value raises IndexError. |
| GetCompressedImage.GetFrameSize | samples/Linux/getCompressedImage.py:31-66 | A failed ROI or addressing query returns that failing tuple. Short ROI or addressing lists raise IndexError, zero addressing raises ZeroDivisionError, and so does nothing else. With valid replies an HDR reply without a value raises IndexError; otherwise the size is `int` of width × multiplier × height × bpp ÷ addressing. |
| GetCompressedImage.HdrFailureIgnored | samples/Linux/getCompressedImage.py:51-55 | A failed GAIN_HDR query gives the same frame size as HDR mode NONE. |
| GetCompressedImage.InterleavedDoublesWidth | samples/Linux/getCompressedImage.py:56-62 | Interleaved HDR gives the size of a ROI of twice the width without HDR. |
| GetCompressedImage.AgreesWithImageSize | samples/Linux/getCompressedImage.py:31-66 | Without HDR, the sample's frame size agrees with the wrapper's `imageSize` on the same ROI, addressing and format, errors included. |
| GetCompressedImage.CheckSetup | samples/Linux/getCompressedImage.py:108-131 | A failed format query, a format other than MONO8 or BAYER8, or a failing size query gives GENERAL_ERROR. An empty format reply raises IndexError, and an exception of the size computation propagates. An accepted format with a computed size goes on with that format and size, and only then. |
| GetSnapshot.FirstItem | samples/Windows/getSnapshot.py:33 | `ret[0]` on the bare integer that `get_raw_image` can return raises TypeError. On a tuple it is the return code. |
| GetSnapshot.CaptureRetrying | samples/Windows/getSnapshot.py:112-128 | One to four capture attempts are made. The result is the last attempt's reply, every earlier attempt failed, and stopping before the fourth means success. |
| GetSnapshot.GetRawImage | samples/Windows/getSnapshot.py:107-134 | As written. A failed START returns the bare FAILURE integer. Otherwise the calls are START, then the attempts, then STOP, and the result is the last attempt's reply. |
| GetSnapshot.GetRawImageFixed | samples/Windows/getSnapshot.py:107-134 | Corrected: a failed START returns the tuple `(rc,)`, so the result is always a tuple. |
| GetSnapshot.SaveImageToFile | samples/Windows/getSnapshot.py:142-163 | An empty file name or image fails the asserts. Otherwise the result is SUCCESS exactly when the bytes written equal the image length. |
| GetSnapshot.FormatAndSave | samples/Windows/getSnapshot.py:30-50 | `get_snapshot`'s tail. A bare integer raises TypeError, and a failed capture gives FAILURE. A successful capture is formatted and saved, and SUCCESS requires a saved, non-empty image. |
| GetSnapshot.BareFailureRaises | samples/Windows/getSnapshot.py:116-117 | FAILURE is a success code to `apiSuccess`, yet the bare value makes `get_snapshot` raise TypeError. |
| GetSnapshot.FailedStartReportsFailure | samples/Windows/getSnapshot.py:30-50 | With the corrected tuple, a failed START makes `get_snapshot` return FAILURE. |
| GetSnapshot.SnapshotFromSize | samples/Windows/getSnapshot.py:23-50 | As written. A size of 0 gives FAILURE without capturing, a negative size raises ValueError, and a failed START raises TypeError. Otherwise the result is the capture, format and save tail. |
| GetSnapshot.SnapshotFromSizeFixed | samples/Windows/getSnapshot.py:23-50 | Corrected: a failed START gives FAILURE, and TypeError is never raised. |
| GetSnapshot.AddressingFactors | samples/Windows/getSnapshot.py:70-83 | Addressing defaults to 1×1 when its query fails. With exactly 4 parameters it is (X_VALUE, Y_VALUE); otherwise VALUE is used for both axes. |
| GetSnapshot.RawSize | samples/Windows/getSnapshot.py:86-96 | The size is `int((w/paX)*(h/paY)*bpp)`. It raises ZeroDivisionError exactly when an addressing value is 0, and it is 0 for an unknown format. |
| GetSnapshot.DetermineRawImageSize | samples/Windows/getSnapshot.py:58-96 | As written. A failed or short ROI reply raises IndexError at `ret[2]`, an empty addressing reply raises IndexError, zero addressing factors raise ZeroDivisionError, and a failed or empty format reply raises IndexError. Otherwise the size is `int(w*h*bpp / (paX*paY))` from the ROI, the addressing factors and the format, and every value it returns is that size. |
| GetSnapshot.AddressingFallback | samples/Windows/getSnapshot.py:70-74 | A failed addressing query sizes the image as 1×1 addressing does. |
| GetSnapshot.SymmetricAddressing | samples/Windows/getSnapshot.py:80-83 | A single addressing value sizes the image as equal X and Y values do. |
| GetSnapshot.DetermineRawImageSizeChecked | samples/Windows/getSnapshot.py:58-96 | Corrected: a failed ROI or format query gives 0. Otherwise it agrees with the as-written size. |
| GetSnapshot.GetSnapshotAsWritten | samples/Windows/getSnapshot.py:17-50 | As written. An exception of the size computation (such as a failed ROI query's IndexError) propagates without camera calls. A size of 0 gives FAILURE and a negative size raises ValueError, both without capturing. A positive size after a failed START raises TypeError at `ret[0]`, after a successful one it goes through capture, format and save. |
| GetSnapshot.GetSnapshot | samples/Windows/getSnapshot.py:17-50 | Corrected: a failed ROI or format query gives FAILURE without capturing, and so does a failed START. A raising size (short ROI reply, zero addressing, empty format reply) propagates, size 0 gives FAILURE and a negative size ValueError, all with no camera call. SUCCESS implies a successful capture. |
| GetHdrSnapshot.HdrSetting | samples/Linux/getHDRSnapshot.py:54-65 | CAMERA and INTERLEAVED are set as MANUAL with their own value. Every other mode is OFF with 0. |
| GetHdrSnapshot.HdrSettingReadBack | samples/Linux/getHDRSnapshot.py:54-65 | Read back by the compressed-image sample, a setting doubles the width exactly for INTERLEAVED. |
| GetHdrSnapshot.SetHdrMode | samples/Linux/getHDRSnapshot.py:48-76 | The request sets GAIN_HDR with that flag and value. The result is SUCCESS exactly when `setFeature` succeeds, and FAILURE exactly when it fails. |
| GetHdrSnapshot.DetermineRawImageSize | samples/Linux/getHDRSnapshot.py:120-174 | A failure of any of the four queries gives 0. A short ROI or addressing reply, or an empty format or HDR reply, raises IndexError, and zero addressing raises ZeroDivisionError. Otherwise the size is the truncated product, doubled after truncation under INTERLEAVED. |
| GetHdrSnapshot.DoublingOrder | samples/Linux/getHDRSnapshot.py:160-165 | Doubling after truncation differs from truncating the doubled value by at most one byte. |
| GetHdrSnapshot.DoublingOrderExample | samples/Linux/getHDRSnapshot.py:160-165 | A 1×1 MONO12_PACKED frame under INTERLEAVED is 2 bytes in this sample and 3 bytes in the compressed-image sample. |
| GetHdrSnapshot.GetHdrSnapshot | samples/Linux/getHDRSnapshot.py:78-118 | Asserts come first. An exception of the size computation propagates, a size of 0 gives FAILURE and a negative size raises ValueError, all without camera calls. A failed START raises TypeError after the START call alone (the shared defect). Otherwise the result is the capture, format and save tail. |
| GetHdrSnapshot.CaptureEachHdrMode | samples/Linux/getHDRSnapshot.py:257-287 | Every branch of the run. A failed CAMERA setting ends with FAILURE. After it succeeds, the CAMERA snapshot is taken and an exception from it propagates. Otherwise INTERLEAVED is set, and a failed setting ends with FAILURE. Its snapshot is taken next, and an exception from it propagates. Otherwise NONE is set, and the result is SUCCESS exactly when the INTERLEAVED snapshot succeeded, FAILURE otherwise. |
| GetPolarSnapshot.SetPolarPixelFormat | samples/Windows/getPolarSnapshot.py:50-66 | The request is POLAR4_12 with MANUAL. The result is SUCCESS exactly when the call succeeds. |
| GetPolarSnapshot.PolarWeights | samples/Windows/getPolarSnapshot.py:77-101 | Channels 0 to 3 weigh only that channel 100 and the others 0. Any other channel weighs all four 100. |
| GetPolarSnapshot.PolarWeightsValid | samples/Windows/getPolarSnapshot.py:77-101 | The weights chosen never fail the non-negativity asserts, and different channels get different weights. |
| GetPolarSnapshot.SetPolarWeightings | samples/Windows/getPolarSnapshot.py:142-163 | A zero handle or a negative weight fails an assert. Otherwise the four weights are sent with MANUAL, and SUCCESS means the call succeeded. |
| GetPolarSnapshot.DetermineRawImageSize | samples/Windows/getPolarSnapshot.py:165-191 | A failed ROI or format query gives 0, and a short ROI or empty format reply raises IndexError. Otherwise the size is `int(w*h*bpp)`, ignoring pixel addressing. |
| GetPolarSnapshot.PolarSizeIsUnaddressedSize | samples/Windows/getPolarSnapshot.py:165-191 | The polar size equals the snapshot sample's size when addressing is unavailable. |
| GetPolarSnapshot.PolarFrameBytes | samples/Windows/getPolarSnapshot.py:165-191 | A POLAR4_12 frame of w×h pixels is 6·w·h bytes. |
| GetPolarSnapshot.GetPolarSnapshot | samples/Windows/getPolarSnapshot.py:68-140 | Asserts come first. A failed weight setting or a size of 0 gives FAILURE, a short size reply raises IndexError and a negative size ValueError, all before capturing. A failed START raises TypeError after the START call alone. Otherwise it is the capture, format and save tail. |
| GetPolarSnapshot.CaptureEachChannel | samples/Windows/getPolarSnapshot.py:289-309 | Channels 0 to 3 are captured in order into their own files. The result is SUCCESS exactly when the last snapshot succeeds. |
| Triggering.EnableFeature | samples/Linux/triggering.py:52-57 | Enabling sets MANUAL and clears AUTO, ONEPUSH and OFF. Disabling sets OFF and clears MANUAL, AUTO and ONEPUSH. Every bit outside MOD_BITS is set. |
| Triggering.EnableFeatureIgnoresFlags | samples/Linux/triggering.py:52-57 | The result does not depend on the flags passed in. |
| Triggering.EnableFeatureWords | samples/Linux/triggering.py:52-57 | The two words are `~MOD_BITS \| MANUAL` and `~MOD_BITS \| OFF` as unsigned 32-bit values, and both carry PRESENCE. |
| Triggering.DisableTriggering | samples/Linux/triggering.py:60-76 | A failed read or a parameter count other than 5 fails an assert. Otherwise the current parameters are written back unchanged with the disabled flags. |
| Triggering.SetTriggering | samples/Linux/triggering.py:78-102 | It requires a successful read of exactly 5 parameters. It writes mode, type, polarity, delay and parameter in that order with the enabled flags. |
| GetFeatureSample.StateOf | samples/Windows/getFeature.py:54-57 | OFF is DISABLED before AUTO is CONTINUOUS, which comes before ONEPUSH is ONE_TIME; otherwise MANUAL. Each state holds exactly under its flag condition. |
| GetFeatureSample.KindOf | samples/Windows/getFeature.py:58-60 | 2 is HARDWARE and 1 is SOFTWARE. Every other value is ACTION. |
| GetFeatureSample.FreeRunningReportedAsAction | samples/Windows/getFeature.py:58-60 | A free-running trigger is reported as ACTION. |
| GetFeatureSample.DescriptionOf | samples/Windows/getFeature.py:63-74 | Modes 0 and 1 have fixed texts. Mode 14 says "until StreamStop" for NUMBER 0 and "n frames" otherwise, and raises IndexError without a NUMBER. Any other mode is described generically. |
| GetFeatureSample.Classify | samples/Windows/getFeature.py:51-74 | "Not supported" is reported exactly without PRESENCE. With PRESENCE a list too short for the type raises IndexError, a description that raises propagates, and otherwise the report holds the state, type and description classified above. |
| GetFeatureSample.ClassifyEnabledFlags | samples/Windows/getFeature.py:51-57 | The flags that triggering writes read back as MANUAL when enabled and as DISABLED when disabled, both as supported. |
| GetCameraFeature.SetNames | samples/Linux/getCameraFeature.py:20-34 | A filter over a flag table reports at most one name per entry. |
| GetCameraFeature.SetNamesMembers | samples/Linux/getCameraFeature.py:20-34 | For a table with distinct names, an entry's name is reported exactly when its bit is set. |
| GetCameraFeature.DecodeFeatureFlags | samples/Linux/getCameraFeature.py:20-34 | At most the seven names are reported, in the order the function tests them. |
| GetCameraFeature.DecodeFeatureFlagsReports | samples/Linux/getCameraFeature.py:20-34 | Each of PRESENCE, READ_ONLY, DESC_SUPPORTED, MANUAL, AUTO, ONEPUSH and OFF is reported exactly when that flag is set. |
| GetCameraFeature.DecodeTriggerType | samples/Linux/getCameraFeature.py:176-182 | A name is given exactly for FREE_RUNNING, SOFTWARE and HARDWARE. Everything else is "Unknown trigger type". |
| GetCameraFeature.DecodeTriggerTypeNames | samples/Linux/getCameraFeature.py:176-182 | ACTION is unknown, and the three named types have different names. |
| GetCameraFeature.DecodePolarity | samples/Linux/getCameraFeature.py:185-190 | 0 is negative and 1 is positive. Every other value is unknown. |
| GetCameraFeature.FirstWithId | samples/Linux/getCameraFeature.py:106-113 | The position found holds the id, and no earlier position does. None means no position holds it. |
| GetCameraFeature.FindFeatureAsWritten | samples/Linux/getCameraFeature.py:96-119 | As written. With one feature or none an assert fails. A missing id gives the error. A found id leads to printing array entry `featureId`, not the position where it was found. |
| GetCameraFeature.FindFeature | samples/Linux/getCameraFeature.py:96-119 | Corrected: the entry printed is the first one holding the id, and it is in range. |
| GetCameraFeature.TriggerIsNotAtItsId | samples/Linux/getCameraFeature.py:108-114 | With SHUTTER and TRIGGER listed, TRIGGER (id 12) is found at position 1. The array has no entry 12. |
| PtpV2.TransitoryPtpState | samples/Linux/ptpV2.py:23-37 | A status is transitory exactly when it is INITIALIZING, LISTENING, PREMASTER or UNCALIBRATED. |
| PtpV2.StableStatesEndTheWait | samples/Linux/ptpV2.py:23-37 | FAULTY, DISABLED, MASTER, PASSIVE and SLAVE are not transitory, and neither is any value outside the table. |
| PtpV2.SyncEnd | samples/Linux/ptpV2.py:68-90 | The loop makes at most one poll per reply given, and at least one when any is given. |
| PtpV2.SyncEndStopsAtFirstStable | samples/Linux/ptpV2.py:68-90 | Every poll before the last one settled. The loop keeps polling exactly when every reply settles. Otherwise the first unsettled poll decides: a failure gives EXIT_FAILURE, a short list raises IndexError, and a stable status gives EXIT_SUCCESS with four parameters. |
| PtpV2.WaitForSync | samples/Linux/ptpV2.py:68-90 | The `while True` loop ends as the reference definition prescribes, after the number of polls it prescribes. |
| PtpV2.RunSample | samples/Linux/ptpV2.py:50-90 | A failed probe gives EXIT_FAILURE with nothing sent. Otherwise the request is PTP with AUTO and `[AUTOMATIC, 0, 0, 0]`, and a failed request gives EXIT_FAILURE. After that the result is the polling loop's. |
| SetIpAddress.FirstSubnetDifference | samples/Linux/setIpAddress.py:30-34 | The first octet position where the two subnets differ. All octets before it agree, and past four octets the NIC list is exhausted. |
| SetIpAddress.IsSubnetMatches | samples/Linux/setIpAddress.py:20-34 | The three loops compute the reference definition: IndexError for a mask shorter than the address, otherwise a byte-by-byte comparison of the masked addresses. |
| SetIpAddress.SubnetMatchesMeaning | samples/Linux/setIpAddress.py:20-34 | For an address of at most four octets the result is True exactly when every octet agrees under the two masks. |
| SetIpAddress.NicMatchesItself | samples/Linux/setIpAddress.py:20-34 | The NIC's own address and mask are on its subnet. |
| SetIpAddress.LongAddressRaises | samples/Linux/setIpAddress.py:30-34 | An address longer than four octets raises IndexError exactly when its first four octets agree. |
| GpioSample.GpiIndexFor | samples/Windows/gpio.py:46-51 | The GPI index is 3 exactly when the largest GPIO index is 3, and 1 otherwise. |
| GpioSample.GpoRequest | samples/Windows/gpio.py:132-136 | The GPO write sets index 2, NORMAL mode and polarity equal to the GPI reading. It keeps the other parameters and their count. |
| GpioSample.Poll | samples/Windows/gpio.py:113-150 | The loop writes at most once per reading. It ends with 0 or 1 unless an exception escapes. |
| GpioSample.PollWritesAlternate | samples/Windows/gpio.py:123-142 | Writes happen only on a change of GPI. The k-th write sets polarity to the opposite of the one before, starting from the opposite of the initial ON. |
| GpioSample.SteadyGpiWritesNothing | samples/Windows/gpio.py:123-142 | Readings that never change the GPI cause no write. |
| GpioSample.GpioState.constructor | samples/Windows/gpio.py:156-158 | The `__main__` block sets the global `gpiIndex` to 0 before `main` runs. |
| GpioSample.GpioState.SupportsGpio | samples/Windows/gpio.py:27-51 | The result is true exactly when PRESENCE is set, the largest index is at least 2 and the largest mode at least INPUT. Then `gpiIndex` is chosen; otherwise it is unchanged. |
| GpioSample.GpioState.SetupGpios | samples/Windows/gpio.py:55-76 | The GPI is configured as INPUT at `gpiIndex`. Only if that succeeds is GPO 2 then configured as NORMAL, and the code returned is the last call's. |
| GpioSample.GpioState.WriteGpo | samples/Windows/gpio.py:131-135 | The GPO write sent is exactly the GPO request for the GPI value just read. The return code is the library's answer to it, and the parameter list becomes the one sent. |
| GpioSample.GpioState.PollGpi | samples/Windows/gpio.py:113-153 | The loop's result and its sequence of GPO writes are those the reference definition `Poll` gives for the reads, starting from GPI ON. |
| GpioSample.GpioState.RunSample | samples/Windows/gpio.py:79-153 | An incapable camera or a failed setup gives 1 with no write. Otherwise the result and the writes are those of the edge-triggered loop, starting from GPI ON. |

## Left out

- Library loading and the version gate: registry queries, `subprocess` and loading the shared library are import-time environment I/O.
- ctypes structure and union layouts: byte offsets belong to the vendor's C header. The structures appear only as records of the fields the code reads (`CameraIdInfo`, `CameraFeatures`, `FrameDesc`). The shape of a `_CameraFeatures` buffer is a precondition (`GpioSample.FeaturesShaped`).
- Native entry points: every `PxLApi._Api.PxL...` call is a parameter. It is either a reply value or a total function of what the wrapper hands over, so a native call is deterministic per request.
- Callbacks and native threads: the callback prototypes and registration are left out. `Callback.CallbackFormatPreview` models the body run on one frame.
- Printing and terminal I/O, keyboard polling and `time.sleep`: the decisions made are modelled, but not what is printed or how long it waits. Decoders return the names they would print.
- File system: `save_image_to_file` takes the number of bytes written as a parameter. Creating the directory and an `open()` that raises are left out.
- Image formatting and capture buffers: `formatImage` and `getNextFrame` inside the snapshot samples are oracles (`formatted`, `attempt`). The raw image bytes are not modelled.
- Floating point: feature parameters (`c_float`) are integers and byte widths are quarter bytes. The fractional ROI or addressing values that the camera never reports are not modelled.
- Frame counts computed from fps in the clip samples, and the capture itself, are left out; only `get_parameters` and the defaults are modelled.
- The `main` functions' `initialize`/`uninitialize` calls and their hardware-capability checks (`does_camera_support_hdr`, `is_polar_camera`, the PTP and GPIO support checks, `print_camera_feature`) are left out. Each `main` is modelled from the point after `initialize` succeeds.
- getCompressedImage: the compression and decompression steps of `main` call entry points the wrapper does not declare. Only the pixel-format gate and the frame-size check are modelled (`GetCompressedImage.CheckSetup`).
- Unbounded loops: the PTP `while True` loop and the GPIO loop that runs until a key is pressed are given finite sequences of replies. `Polling` means the replies ran out while the loop was still going.
- GpioSample.GpioState.RunSample: `gpiReads[k]` is the outcome of the k-th GPI read. That it is the reply to a `getFeature` at `gpiIndex` is not tied to the request.
- SetIpAddress: the addresses are octets (`bv8`). Python integers above 255 in the lists are not modelled. In `main`, an early `return GENERAL_ERROR` (samples/Linux/setIpAddress.py:51) makes the rest of the function unreachable, so only `is_subnet_matches` is modelled.
- The clip parsers' check `i+1 >= len(argv)` inside the loop can never fire, because the loop bound already excludes it. It has no counterpart in the model.
- Callback.CallbackFormatPreview: the print of the first 8 bytes of the frame is left out.
- PyInt.Parse: reads ASCII digits only. Python's `int()` also reads the other Unicode decimal digits (such as Arabic-Indic or full-width digits); no command line of the samples needs them, and the model reads them as not a number. Newer Python versions (3.11 on) also refuse literals of more than 4300 digits by default (`sys.int_info.default_max_str_digits`); the model accepts literals of any length.
- GetCameraFeature.DecodeFeatureFlags: states its result as a filter over the table of the seven flags, in order. It does not spell out the seven tests.
- getNumberControllers and the other pass-through wrappers that return only `(rc,)` carry no host-side logic and are not modelled.
- The Linux variant of gpio.py is not part of this model.

## Findings

| source | as written | input that shows it | evidently intended | confidence | as-written member | corrected member |
|---|---|---|---|---|---|---|
| pixelinkWrapper/pixelink.py:1200-1201 | `ctaCameraIdInfo[0].StructSize = ...` on an array of the reported length | no camera connected: a successful count query reporting 0 raises IndexError | an empty list when no camera is found | not executed | PxLApi.GetNumberCameras | PxLApi.GetNumberCamerasGuarded |
| samples/Windows/getSnapshot.py:116-117 | `get_raw_image` returns the bare integer FAILURE when START fails, and the caller evaluates `ret[0]` | a START that returns a negative code makes `get_snapshot` raise TypeError; the same code is in samples/Linux/getHDRSnapshot.py:186-187 and samples/Windows/getPolarSnapshot.py:212-213 | return the tuple `(rc,)` so the caller reports FAILURE | not executed | GetSnapshot.SnapshotFromSize | GetSnapshot.SnapshotFromSizeFixed |
| samples/Windows/getSnapshot.py:63-64 | `params = ret[2]` after the ROI and pixel-format queries without checking their return codes | a failed ROI query returns `(rc,)`, so `ret[2]` raises IndexError | return 0 ("Returns 0 on failure"), as the HDR and polar samples do | not executed | GetSnapshot.GetSnapshotAsWritten | GetSnapshot.GetSnapshot |
| samples/Linux/getCameraFeature.py:108-114 | the search stores `features[i].uFeatureId` as the index of the feature found | features SHUTTER (7) and TRIGGER (12): looking up TRIGGER indexes entry 12 of a two-entry array | store the position `i` where the feature was found | not executed | GetCameraFeature.FindFeatureAsWritten | GetCameraFeature.FindFeature |

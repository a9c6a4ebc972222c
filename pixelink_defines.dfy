// Constants of the binding: the nested classes of `PxLApi` in pixelinkWrapper/pixelink.py.

/** Return codes of the native library (`PxLApi.ReturnCode`, pixelink.py:546-630). */
module ReturnCode {
  const ApiSuccess: int := 0
  const ApiSuccessParametersChanged: int := 1
  const ApiSuccessAlreadyRunning: int := 2
  const ApiSuccessLowMemory: int := 3
  const ApiSuccessParameterWarning: int := 4
  const ApiSuccessReducedSpeedWarning: int := 5
  const ApiSuccessExposureAdjustmentMade: int := 6
  const ApiSuccessWhiteBalanceTooDark: int := 7
  const ApiSuccessWhiteBalanceTooBright: int := 8
  const ApiSuccessWithFrameLoss: int := 9
  const ApiSuccessGainIneffectiveWarning: int := 10
  const ApiSuccessSuspectedFirewallBlockWarning: int := 11
  const ApiUnknownError: int := -2147483647
  const ApiInvalidHandleError: int := -2147483646
  const ApiInvalidParameterError: int := -2147483645
  const ApiBufferTooSmall: int := -2147483644
  const ApiInvalidFunctionCallError: int := -2147483643
  const ApiNotSupportedError: int := -2147483642
  const ApiCameraInUseError: int := -2147483641
  const ApiNoCameraError: int := -2147483640
  const ApiHardwareError: int := -2147483639
  const ApiCameraUnknownError: int := -2147483638
  const ApiOutOfBandwidthError: int := -2147483637
  const ApiOutOfMemoryError: int := -2147483636
  const ApiOSVersionError: int := -2147483635
  const ApiNoSerialNumberError: int := -2147483634
  const ApiInvalidSerialNumberError: int := -2147483633
  const ApiDiskFullError: int := -2147483632
  const ApiIOError: int := -2147483631
  const ApiStreamStopped: int := -2147483630
  const ApiNullPointerError: int := -2147483629
  const ApiCreatePreviewWndError: int := -2147483628
  const ApiOutOfRangeError: int := -2147483626
  const ApiNoCameraAvailableError: int := -2147483625
  const ApiInvalidCameraName: int := -2147483624
  const ApiGetNextFrameBusy: int := -2147483623
  const ApiFrameInUseError: int := -2147483622
  const ApiStreamExistingError: int := -1879048191
  const ApiEnumDoneError: int := -1879048190
  const ApiNotEnoughResourcesError: int := -1879048189
  const ApiBadFrameSizeError: int := -1879048188
  const ApiNoStreamError: int := -1879048187
  const ApiVersionError: int := -1879048186
  const ApiNoDeviceError: int := -1879048185
  const ApiCannotMapFrameError: int := -1879048184
  const ApiLinkDriverError: int := -1879048183
  const ApiInvalidIoctlParameter: int := -1879048182
  const ApiInvalidOhciDriverError: int := -1879048181
  const ApiCameraTimeoutError: int := -1879048180
  const ApiInvalidFrameReceivedError: int := -1879048179
  const ApiOSServiceError: int := -1879048178
  const ApiTimeoutError: int := -1879048177
  const ApiRequiresControlAccess: int := -1879048176
  const ApiGevInitializationError: int := -1879048175
  const ApiIpServicesError: int := -1879048174
  const ApiIpAddressingError: int := -1879048173
  const ApiDriverCommunicationError: int := -1879048172
  const ApiInvalidXmlError: int := -1879048171
  const ApiCameraRejectedValueError: int := -1879048170
  const ApiSuspectedFirewallBlockError: int := -1879048169
  const ApiIncorrectLinkSpeed: int := -1879048168
  const ApiCameraNotReady: int := -1879048167
  const ApiInconsistentConfiguration: int := -1879048166
  const ApiNotPermittedWhileStreaming: int := -1879048165
  const ApiOSAccessDeniedError: int := -1879048164
  const ApiInvalidAutoRoiError: int := -1879048163
  const ApiGpiHardwareTriggerConflict: int := -1879048162
  const ApiGpioConfigurationError: int := -1879048161
  const ApiUnsupportedPixelFormatError: int := -1879048160
  const ApiUnsupportedClipEncoding: int := -1879048159
  const ApiH264EncodingError: int := -1879048158
  const ApiH264FrameTooLargeError: int := -1879048157
  const ApiH264InsufficientDataError: int := -1879048156
  const ApiNoControllerError: int := -1879048155
  const ApiControllerAlreadyAssignedError: int := -1879048154
  const ApiControllerInaccessibleError: int := -1879048153
  const ApiControllerCommunicationError: int := -1879048152
  const ApiControllerTimeoutError: int := -1879048151
  const ApiBufferTooSmallForInterleavedError: int := -1879048150
  const ApiThisEventNotSupported: int := -1879048149
  const ApiFeatureConflictError: int := -1879048148
  const ApiGpiOnlyError: int := -1879048147
  const ApiGpoOnlyError: int := -1879048146
  const ApiInvokedFromIncorrectThreadError: int := -1879048145

  /** The twelve success codes, in declaration order. */
  const SuccessCodes: seq<int> := [
    ApiSuccess,
    ApiSuccessParametersChanged,
    ApiSuccessAlreadyRunning,
    ApiSuccessLowMemory,
    ApiSuccessParameterWarning,
    ApiSuccessReducedSpeedWarning,
    ApiSuccessExposureAdjustmentMade,
    ApiSuccessWhiteBalanceTooDark,
    ApiSuccessWhiteBalanceTooBright,
    ApiSuccessWithFrameLoss,
    ApiSuccessGainIneffectiveWarning,
    ApiSuccessSuspectedFirewallBlockWarning]

  /** Every failure code, in declaration order, in blocks of twelve. */
  const ErrorCodes1: seq<int> := [
    ApiUnknownError,
    ApiInvalidHandleError,
    ApiInvalidParameterError,
    ApiBufferTooSmall,
    ApiInvalidFunctionCallError,
    ApiNotSupportedError,
    ApiCameraInUseError,
    ApiNoCameraError,
    ApiHardwareError,
    ApiCameraUnknownError,
    ApiOutOfBandwidthError,
    ApiOutOfMemoryError]
  const ErrorCodes2: seq<int> := [
    ApiOSVersionError,
    ApiNoSerialNumberError,
    ApiInvalidSerialNumberError,
    ApiDiskFullError,
    ApiIOError,
    ApiStreamStopped,
    ApiNullPointerError,
    ApiCreatePreviewWndError,
    ApiOutOfRangeError,
    ApiNoCameraAvailableError,
    ApiInvalidCameraName,
    ApiGetNextFrameBusy]
  const ErrorCodes3: seq<int> := [
    ApiFrameInUseError,
    ApiStreamExistingError,
    ApiEnumDoneError,
    ApiNotEnoughResourcesError,
    ApiBadFrameSizeError,
    ApiNoStreamError,
    ApiVersionError,
    ApiNoDeviceError,
    ApiCannotMapFrameError,
    ApiLinkDriverError,
    ApiInvalidIoctlParameter,
    ApiInvalidOhciDriverError]
  const ErrorCodes4: seq<int> := [
    ApiCameraTimeoutError,
    ApiInvalidFrameReceivedError,
    ApiOSServiceError,
    ApiTimeoutError,
    ApiRequiresControlAccess,
    ApiGevInitializationError,
    ApiIpServicesError,
    ApiIpAddressingError,
    ApiDriverCommunicationError,
    ApiInvalidXmlError,
    ApiCameraRejectedValueError,
    ApiSuspectedFirewallBlockError]
  const ErrorCodes5: seq<int> := [
    ApiIncorrectLinkSpeed,
    ApiCameraNotReady,
    ApiInconsistentConfiguration,
    ApiNotPermittedWhileStreaming,
    ApiOSAccessDeniedError,
    ApiInvalidAutoRoiError,
    ApiGpiHardwareTriggerConflict,
    ApiGpioConfigurationError,
    ApiUnsupportedPixelFormatError,
    ApiUnsupportedClipEncoding,
    ApiH264EncodingError,
    ApiH264FrameTooLargeError]
  const ErrorCodes6: seq<int> := [
    ApiH264InsufficientDataError,
    ApiNoControllerError,
    ApiControllerAlreadyAssignedError,
    ApiControllerInaccessibleError,
    ApiControllerCommunicationError,
    ApiControllerTimeoutError,
    ApiBufferTooSmallForInterleavedError,
    ApiThisEventNotSupported,
    ApiFeatureConflictError,
    ApiGpiOnlyError,
    ApiGpoOnlyError,
    ApiInvokedFromIncorrectThreadError]
  const ErrorCodes: seq<int> := ErrorCodes1 + ErrorCodes2 + ErrorCodes3 + ErrorCodes4 + ErrorCodes5 + ErrorCodes6
}

/** `PxLApi.FeatureFlags` (pixelink.py:169-185): bits of a 32-bit unsigned flag word. */
module FeatureFlags {
  const PRESENCE: bv32 := 1
  const MANUAL: bv32 := 2
  const AUTO: bv32 := 4
  const ONEPUSH: bv32 := 8
  const OFF: bv32 := 16
  const MOD_BITS: bv32 := 30
  const DESC_SUPPORTED: bv32 := 32
  const READ_ONLY: bv32 := 64
  const SETTABLE_WHILE_STREAMING: bv32 := 128
  const PERSISTABLE: bv32 := 256
  const EMULATION: bv32 := 512
  const VOLATILE: bv32 := 1024
  const CONTROLLER: bv32 := 2048
  const ASSERT_LOWER_LIMIT: bv32 := 4096
  const ASSERT_UPPER_LIMIT: bv32 := 8192
  const USES_AUTO_ROI: bv32 := 16384

  /** Is `bit` set in `flags`? (Python's truth value of `flags & bit`.) */
  predicate Has(flags: bv32, bit: bv32) {
    flags & bit != 0
  }
}

/** `PxLApi.FeatureId` (pixelink.py:119-167), the identifiers the modelled code uses. */
module FeatureId {
  const ALL: int := -1
  const SHUTTER: int := 7
  const GAIN: int := 8
  const TRIGGER: int := 12
  const GPIO: int := 17
  const ROI: int := 19
  const PIXEL_ADDRESSING: int := 21
  const PIXEL_FORMAT: int := 22
  const GAIN_HDR: int := 38
  const POLAR_WEIGHTINGS: int := 39
  const PTP: int := 41
}

/** `PxLApi.PixelFormat` (pixelink.py:201-244); aliases share their value. */
module PixelFormat {
  const MONO8: int := 0
  const MONO16: int := 1
  const YUV422: int := 2
  const BAYER8_GRBG: int := 3
  const BAYER8: int := 3
  const BAYER16_GRBG: int := 4
  const BAYER16: int := 4
  const RGB24: int := 5
  const RGB24_DIB: int := 5
  const RGB48: int := 6
  const RGB48_NON_DIB: int := 6
  const BAYER8_RGGB: int := 7
  const BAYER8_GBRG: int := 8
  const BAYER8_BGGR: int := 9
  const BAYER16_RGGB: int := 10
  const BAYER16_GBRG: int := 11
  const BAYER16_BGGR: int := 12
  const MONO12_PACKED: int := 13
  const BAYER12_GRBG_PACKED: int := 14
  const BAYER12_PACKED: int := 14
  const BAYER12_RGGB_PACKED: int := 15
  const BAYER12_GBRG_PACKED: int := 16
  const BAYER12_BGGR_PACKED: int := 17
  const RGB24_NON_DIB: int := 18
  const RGB48_DIB: int := 19
  const MONO12_PACKED_MSFIRST: int := 20
  const BAYER12_GRBG_PACKED_MSFIRST: int := 21
  const BAYER12_PACKED_MSFIRST: int := 21
  const BAYER12_RGGB_PACKED_MSFIRST: int := 22
  const BAYER12_GBRG_PACKED_MSFIRST: int := 23
  const BAYER12_BGGR_PACKED_MSFIRST: int := 24
  const MONO10_PACKED_MSFIRST: int := 25
  const BAYER10_GRBG_PACKED_MSFIRST: int := 26
  const BAYER10_PACKED_MSFIRST: int := 26
  const BAYER10_RGGB_PACKED_MSFIRST: int := 27
  const BAYER10_GBRG_PACKED_MSFIRST: int := 28
  const BAYER10_BGGR_PACKED_MSFIRST: int := 29
  const STOKES4_12: int := 30
  const POLAR4_12: int := 31
  const POLAR_RAW4_12: int := 32
  const HSV4_12: int := 33
  const BGR24: int := 34
  const BGR24_NON_DIB: int := 34
}

/** `PxLApi.StreamState` (pixelink.py:246-249). */
module StreamState {
  const START: int := 0
  const PAUSE: int := 1
  const STOP: int := 2
}

/** `PxLApi.TriggerTypes`, `Polarity`, `TriggerParams` and `TriggerModes` (pixelink.py:265-332). */
module Trigger {
  const FREE_RUNNING: int := 0
  const SOFTWARE: int := 1
  const HARDWARE: int := 2
  const ACTION: int := 3

  const NEGATIVE: int := 0
  const POSITIVE: int := 1

  const MODE: nat := 0
  const TYPE: nat := 1
  const POLARITY: nat := 2
  const DELAY: nat := 3
  const PARAMETER: nat := 4
  const NUMBER: nat := 4
  const NUM_PARAMS: nat := 5

  const MODE_0: int := 0
  const MODE_1: int := 1
  const MODE_14: int := 14
}

/** `PxLApi.GpioParams`, `GpioModes` and `GpioModeInput` (pixelink.py:334-364). */
module Gpio {
  const INDEX: nat := 0
  const MODE: nat := 1
  const POLARITY: nat := 2
  const STATUS: nat := 3
  const NUM_PARAMS: nat := 6

  const NORMAL: int := 1
  const INPUT: int := 5
}

/** `PxLApi.RoiParams` and `PxLApi.PixelAddressingParams` (pixelink.py:366-391). */
module FrameParams {
  const ROI_WIDTH: nat := 2
  const ROI_HEIGHT: nat := 3
  const ROI_NUM_PARAMS: nat := 4

  const PA_VALUE: nat := 0
  const PA_X_VALUE: nat := 2
  const PA_Y_VALUE: nat := 3
  const PA_NUM_PARAMS: nat := 4
}

/** `PxLApi.GainHdr` (pixelink.py:439-442). */
module GainHdr {
  const NONE: int := 0
  const CAMERA: int := 1
  const INTERLEAVED: int := 2
}

/** `PxLApi.PolarWeightings` (pixelink.py:444-448). */
module PolarWeightings {
  const WEIGHTINGS_0_DEG: int := 0
  const WEIGHTINGS_45_DEG: int := 1
  const WEIGHTINGS_90_DEG: int := 2
  const WEIGHTINGS_135_DEG: int := 3
}

/** `PxLApi.PtpParams`, `PtpModes` and `PtpStatus` (pixelink.py:455-476). */
module Ptp {
  const MODE: nat := 0
  const STATUS: nat := 1
  const NUM_PARAMS: nat := 4

  const AUTOMATIC: int := 1

  const INITIALIZING: int := 1
  const FAULTY: int := 2
  const DISABLED: int := 3
  const LISTENING: int := 4
  const PREMASTER: int := 5
  const MASTER: int := 6
  const PASSIVE: int := 7
  const UNCALIBRATED: int := 8
  const SLAVE: int := 9
}

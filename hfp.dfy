/** Hands-Free Profile vocabulary used by the session engine: the ordered
    SLC states, the supported-feature bits exchanged with +BRSF, the codec
    identifiers of +BAC/+BCS and the indicators of +CIND/+CIEV. */
module Hfp {

  /** The service level connection states. They are ordinal numbers, as the C
      enumeration is, so that handlers can compare them and the OK handler can
      step to the next one. */
  type State = nat

  const Disconnected: State := 0
  const SlcBrsfSet: State := 1
  const SlcBrsfSetOk: State := 2
  const SlcBacSetOk: State := 3
  const SlcCindTest: State := 4
  const SlcCindTestOk: State := 5
  const SlcCindGet: State := 6
  const SlcCindGetOk: State := 7
  const SlcCmerSetOk: State := 8
  const SlcConnected: State := 9
  const CcBcsSet: State := 10
  const CcBcsSetOk: State := 11
  const CcConnected: State := 12
  const Connected: State := 13

  /** The last member of the enumeration. */
  predicate InEnum(s: State) { s <= Connected }

  /** `if (c->state < target) c->state = target`: the state a handler leaves
      behind when its step of the procedure is done. */
  function Raise(s: State, target: State): (r: State)
    ensures r >= s && r >= target
    ensures r == s || r == target
  {
    if s < target then target else s
  }

  /** Supported-feature bit "codec negotiation" of an HF (bit 7) and of an AG
      (bit 9), as defined by the Hands-Free Profile. */
  const HfFeatCodec: nat := 128
  const AgFeatCodec: nat := 512

  /** `features & bit` for a power-of-two `bit`. */
  predicate HasFeature(features: nat, bit: nat)
    requires bit > 0
  {
    (features / bit) % 2 == 1
  }

  /** Codec identifiers of +BAC and +BCS. */
  const CodecCvsd: int := 1
  const CodecMsbc: int := 2

  /** The indicators an AG reports, and the empty slot of the index map. */
  datatype Indicator =
    | IndNull
    | IndService
    | IndCall
    | IndCallSetup
    | IndCallHeld
    | IndSignal
    | IndRoam
    | IndBattChg

  const IndicatorCount: nat := 8

  /** Position of an indicator in the per-transport value array. */
  function Slot(i: Indicator): (k: nat)
    ensures k < IndicatorCount
  {
    match i
    case IndNull => 0
    case IndService => 1
    case IndCall => 2
    case IndCallSetup => 3
    case IndCallHeld => 4
    case IndSignal => 5
    case IndRoam => 6
    case IndBattChg => 7
  }

  /** Number of entries of the wire-index to indicator map. */
  const IndMapSize: nat := 20

  /** Retry ceiling and timeout (milliseconds) of the SLC procedure. */
  const SlcRetries: nat := 10
  const SlcTimeout: int := 1000
}

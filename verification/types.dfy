/** Basic value types shared by the whole model: fixed-width integers, the
    Option/Result wrappers used for fallible collaborator calls, and the error
    values the handlers return. */
module Types {

  newtype uint8 = x: int | 0 <= x < 0x100
  newtype uint32 = x: int | 0 <= x < 0x1_0000_0000

  /** A GTP tunnel endpoint identifier. */
  type Teid = uint32

  /** An information-element type code. */
  type IEType = uint8

  /** An F-TEID interface type, used as the role key of a session's TEID map. */
  type IfType = uint8

  /** A peer's transport address, as the transport renders it. */
  type Addr = string

  datatype Option<+T> = None | Some(value: T)

  datatype Result<+T> = Success(value: T) | Failure(error: Error)

  /** The errors a handler can return. An error produced inside a
      collaborator (the codec's parser, the transport, session activation) is
      any of these values, chosen by the collaborator and passed through
      unchanged. */
  datatype Error =
    | RequiredIEMissing(ieType: IEType)
    | RequiredParameterMissing
    | Plain(text: string)
    | SessionNotFound(teid: Teid, peer: Addr)

  /** What a handler hands back to the transport: it returns nil, it returns an
      error, or it panics (a nil dereference or an index out of range). */
  datatype Exit = ReturnNil | ReturnErr(error: Error) | Panicked
}

/** Protocol constants of 3GPP TS 29.274 that the handlers use. */
module Gtp {
  import opened Types

  // Information-element type codes (section 8.1 of 3GPP TS 29.274).
  const IeImsi: IEType := 1
  const IeApn: IEType := 71
  const IeMei: IEType := 75
  const IeMsisdn: IEType := 76
  const IeRatType: IEType := 82
  const IeServingNetwork: IEType := 83
  const IeFteid: IEType := 87
  const IeBearerContext: IEType := 93
  const IeApnRestriction: IEType := 127

  // F-TEID interface types (section 8.22 of 3GPP TS 29.274).
  const IfS1uSgwGtpU: IfType := 1
  const IfS5S8PgwGtpU: IfType := 5
  const IfS5S8SgwGtpC: IfType := 6
  const IfS5S8PgwGtpC: IfType := 7
  const IfS11MmeGtpC: IfType := 10
  const IfS11S4SgwGtpC: IfType := 11

  // Cause values (section 8.4 of 3GPP TS 29.274).
  const CauseRequestAccepted: uint8 := 16
  const CauseImsiImeiNotKnown: uint8 := 96

  // APN restriction value "no existing contexts or restriction" (section 8.57).
  const ApnRestrictionNone: uint8 := 0
}

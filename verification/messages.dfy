/** Abstract GTPv2-C messages: only the fields the handlers read or write.
    Wire encoding and the binary layout of information elements belong to the
    codec library and are not modelled. */
module Messages {
  import opened Types

  /** An information element as an opaque value. */
  datatype IE = IE(ieType: IEType, instance: uint8, payload: seq<uint8>)

  /** What the codec's F-TEID accessors report of a received F-TEID IE:
      whether the IPv4 and IPv6 flags are set, and the one address
      `MustIPAddress` returns. */
  datatype FteidView = FteidView(hasIPv4: bool, hasIPv6: bool, address: string)

  /** A fully qualified TEID as built into an outgoing message. */
  datatype Fteid = Fteid(ifType: IfType, teid: Teid, ipv4: string, ipv6: string, instance: uint8)

  /** The Create Session Request fields the handlers look at; an absent IE
      is `None`. */
  datatype CreateSessionRequest = CreateSessionRequest(
    imsi: Option<IE>,
    msisdn: Option<IE>,
    mei: Option<IE>,
    apn: Option<IE>,
    servingNetwork: Option<IE>,
    ratType: Option<IE>,
    senderFteidC: Option<IE>,
    bearerContextsToBeCreated: Option<IE>,
    pgwS5S8FteidC: Option<FteidView>)

  /** The grouped Bearer Context IE of a Create Session Response. */
  datatype BearerContextCreated = BearerContextCreated(
    cause: uint8,
    ebi: uint8,
    s1uSgwFteid: Fteid,
    s5s8uPgwFteid: Fteid)

  datatype CreateSessionResponse = CreateSessionResponse(
    teid: Teid,
    sequence: uint32,
    cause: uint8,
    senderFteidC: Fteid,
    pgwS5S8FteidC: Fteid,
    paa: string,
    apnRestriction: uint8,
    bearerContext: BearerContextCreated)

  datatype DeleteSessionResponse = DeleteSessionResponse(teid: Teid, sequence: uint32, cause: uint8)

  /** A response handed to the transport's RespondTo. */
  datatype Response =
    | CreateSessionRes(csr: CreateSessionResponse)
    | DeleteSessionRes(dsr: DeleteSessionResponse)
}

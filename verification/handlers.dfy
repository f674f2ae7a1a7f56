/** The GTPv2-C session procedures of the combined S/P-GW control plane:
    Create Session (validation, response generation, rollback), Modify
    Bearer, and Delete Session. Each handler is a pure transition from the
    gateway state, the request and the outcomes of the collaborators it calls
    to the new state, the response handed to the transport (if any), and what
    the handler returns. */
module Handlers {
  import opened Types
  import opened Gtp
  import opened Messages
  import opened Sessions

  /** The session fields `ParseCreateSession` extracts from the mandatory IEs. */
  datatype ParsedSession = ParsedSession(imsi: string, roles: map<IfType, Teid>, ebi: uint8)

  /** The gateway's configuration. */
  datatype Upf = Upf(sxAddr: string, s1uAddr: string)
  datatype Config = Config(s11Addr: string, ueSubnet: string, upfs: seq<Upf>)

  /** Everything the handlers call and cannot see, as explicit inputs.
      A collaborator whose arguments matter is a function of them.
      `registers` says whether a successful `ParseCreateSession` registers the
      new session with the connection (so that `GetSessionByTEID` can find
      it); the handlers never register it themselves, and both readings are
      modelled. */
  datatype Collaborators = Collaborators(
    parseCreateSession: (Addr, seq<IE>) -> Result<ParsedSession>,
    registers: bool,
    getSubscriberIP: string -> Result<string>,
    newSenderFteid: (string, string) -> Option<Fteid>,
    selectUPlane: string,
    newFteid: (string, IfType, string, string) -> Option<Fteid>,
    respondTo: Option<Error>,
    activate: Option<Error>)

  datatype Transition = Transition(gw: Gateway, response: Option<Response>, exit: Exit)

  // Error texts of the plain errors built by the response generator.
  const ErrNoS11Fteid := "Unable to allocate v2.IFTypeS11S4SGWGTPC FTEID"
  const ErrNoUserPlanes := "No User planes"
  const ErrNoS1uFteid := "Unable to allocate v2.IFTypeS1USGWGTPU FTEID"

  // ---------------------------------------------------------------------
  // Validation of a Create Session Request
  // ---------------------------------------------------------------------

  /** One row of the mandatory-IE table: the type code reported when the IE
      is absent, and the IE itself. */
  datatype Required = Required(code: IEType, ie: Option<IE>)

  /** The mandatory IEs in the order they are checked. The APN row reports
      the APN Restriction code. */
  function RequiredTable(req: CreateSessionRequest): (t: seq<Required>)
    ensures |t| == 8
    ensures (forall i :: 0 <= i < |t| ==> t[i].ie.Some?) <==> AllPresent(req)
    ensures forall i, j :: 0 <= i < j < |t| ==> t[i].code != t[j].code
    ensures t[3].ie == req.apn && t[3].code == IeApnRestriction != IeApn
  {
    var t :=
      [ Required(IeImsi, req.imsi),
        Required(IeMsisdn, req.msisdn),
        Required(IeMei, req.mei),
        Required(IeApnRestriction, req.apn),
        Required(IeServingNetwork, req.servingNetwork),
        Required(IeRatType, req.ratType),
        Required(IeFteid, req.senderFteidC),
        Required(IeBearerContext, req.bearerContextsToBeCreated) ];
    assert (forall i :: 0 <= i < |t| ==> t[i].ie.Some?) ==> AllPresent(req) by {
      if forall i :: 0 <= i < |t| ==> t[i].ie.Some? {
        assert t[0].ie.Some? && t[1].ie.Some? && t[2].ie.Some? && t[3].ie.Some?;
        assert t[4].ie.Some? && t[5].ie.Some? && t[6].ie.Some? && t[7].ie.Some?;
      }
    }
    t
  }

  /** Row `i` is the first absent IE of the table. */
  predicate FirstAbsent(t: seq<Required>, i: int)
  {
    0 <= i < |t| && t[i].ie.None? && forall j :: 0 <= j < i ==> t[j].ie.Some?
  }

  /** Every mandatory IE is present. */
  predicate AllPresent(req: CreateSessionRequest)
  {
    && req.imsi.Some? && req.msisdn.Some? && req.mei.Some? && req.apn.Some?
    && req.servingNetwork.Some? && req.ratType.Some? && req.senderFteidC.Some?
    && req.bearerContextsToBeCreated.Some?
  }

  /** Walk the table in order: the first absent IE aborts with its code;
      otherwise the IEs are collected in table order. */
  function CollectRequired(t: seq<Required>): (r: Result<seq<IE>>)
    ensures r.Success? <==> forall i :: 0 <= i < |t| ==> t[i].ie.Some?
    ensures r.Success? ==> |r.value| == |t| && forall i :: 0 <= i < |t| ==> r.value[i] == t[i].ie.value
    ensures r.Failure? ==> exists i :: FirstAbsent(t, i) && r.error == RequiredIEMissing(t[i].code)
  {
    if |t| == 0 then Success([])
    else if t[0].ie.None? then
      assert FirstAbsent(t, 0);
      Failure(RequiredIEMissing(t[0].code))
    else
      match CollectRequired(t[1..])
      case Failure(e) =>
        assert exists k :: FirstAbsent(t, k) && e == RequiredIEMissing(t[k].code) by {
          var i :| FirstAbsent(t[1..], i) && e == RequiredIEMissing(t[1..][i].code);
          assert FirstAbsent(t, i + 1) && e == RequiredIEMissing(t[i + 1].code);
        }
        Failure(e)
      case Success(rest) =>
        Success([t[0].ie.value] + rest)
  }

  /** `parseCSReq`: check the mandatory IEs, then let the codec build the
      session from exactly those IEs, in table order. */
  function ParseCSReq(peer: Addr, req: CreateSessionRequest, parse: (Addr, seq<IE>) -> Result<ParsedSession>): (r: Result<ParsedSession>)
    ensures forall i :: FirstAbsent(RequiredTable(req), i) ==>
              r == Failure(RequiredIEMissing(RequiredTable(req)[i].code))
    ensures AllPresent(req) ==>
              r == parse(peer, [req.imsi.value, req.msisdn.value, req.mei.value, req.apn.value,
                                req.servingNetwork.value, req.ratType.value, req.senderFteidC.value,
                                req.bearerContextsToBeCreated.value])
  {
    var t := RequiredTable(req);
    match CollectRequired(t)
    case Failure(e) =>
      assert forall i, k :: FirstAbsent(t, i) && FirstAbsent(t, k) ==> i == k;
      Failure(e)
    case Success(ies) =>
      assert AllPresent(req) by {
        assert forall i :: 0 <= i < |t| ==> t[i].ie.Some?;
        assert t[0].ie.Some? && t[1].ie.Some? && t[2].ie.Some? && t[3].ie.Some?;
        assert t[4].ie.Some? && t[5].ie.Some? && t[6].ie.Some? && t[7].ie.Some?;
      }
      assert ies == [req.imsi.value, req.msisdn.value, req.mei.value, req.apn.value,
                     req.servingNetwork.value, req.ratType.value, req.senderFteidC.value,
                     req.bearerContextsToBeCreated.value];
      parse(peer, ies)
  }

  // ---------------------------------------------------------------------
  // Create Session Response generation
  // ---------------------------------------------------------------------

  /** `strings.Split(addr, ":")[0]`: the text before the first colon. */
  function HostPart(addr: string): (r: string)
    ensures |r| <= |addr| && r == addr[..|r|]
    ensures ':' !in r
    ensures |r| < |addr| ==> addr[|r|] == ':'
  {
    if |addr| == 0 || addr[0] == ':' then ""
    else [addr[0]] + HostPart(addr[1..])
  }

  /** The `v4` and `v6` strings taken from the PGW S5/S8-C F-TEID: the
      address `MustIPAddress` reports, under each flag that is set. */
  function PgwAddresses(f: FteidView): (r: (string, string))
    ensures r == ("", "") <==> (!f.hasIPv4 && !f.hasIPv6) || f.address == ""
    ensures f.hasIPv4 && f.hasIPv6 ==> r.0 == r.1 == f.address
    ensures r.0 != "" ==> f.hasIPv4 && r.0 == f.address
    ensures r.1 != "" ==> f.hasIPv6 && r.1 == f.address
  {
    (if f.hasIPv4 then f.address else "", if f.hasIPv6 then f.address else "")
  }

  datatype GenOutcome = Built(response: CreateSessionResponse) | Failed(error: Error) | Crashed

  /** What the generator leaves behind: the session as mutated, the leased
      address set, and the outcome. */
  datatype Generated = Generated(session: Session, leased: set<string>, outcome: GenOutcome)

  /** `genCSRes`: lease the subscriber address, check the PGW S5/S8-C F-TEID,
      allocate the S11 TEID, select a user plane, allocate the S1-U TEID, and
      build the response from those values. */
  function GenCSRes(cfg: Config, env: Collaborators, leased: set<string>, s: Session, req: CreateSessionRequest): (r: Generated)
    ensures leased <= r.leased
    ensures r.session.id == s.id && r.session.peer == s.peer && r.session.imsi == s.imsi
    ensures r.session.active == s.active && r.session.bearer.ebi == s.bearer.ebi
    ensures env.getSubscriberIP(cfg.ueSubnet).Failure? ==>
              r == Generated(s, leased, Failed(RequiredParameterMissing))
    ensures env.getSubscriberIP(cfg.ueSubnet).Success? ==>
              var ip := env.getSubscriberIP(cfg.ueSubnet).value;
              r.leased == leased + {ip} && r.session.bearer.subscriberIP == ip
    ensures r.outcome.Built? ==>
              var res := r.outcome.response;
              && IfS11S4SgwGtpC in r.session.roles && IfS1uSgwGtpU in r.session.roles
              && res.teid == TeidOrZero(r.session.roles, IfS11MmeGtpC)
              && res.senderFteidC.teid == r.session.roles[IfS11S4SgwGtpC]
              && res.bearerContext.s1uSgwFteid.teid == r.session.roles[IfS1uSgwGtpU]
              && req.pgwS5S8FteidC.Some?
              && var pgw := PgwAddresses(req.pgwS5S8FteidC.value);
              && pgw != ("", "")
              && res.pgwS5S8FteidC == Fteid(IfS5S8PgwGtpC, r.session.roles[IfS11S4SgwGtpC], pgw.0, pgw.1, 1)
              && res.bearerContext.s5s8uPgwFteid == Fteid(IfS5S8PgwGtpU, r.session.roles[IfS1uSgwGtpU], pgw.0, pgw.1, 2)
              && res.apnRestriction == ApnRestrictionNone && res.sequence == 0
              && res.cause == CauseRequestAccepted && res.bearerContext.cause == CauseRequestAccepted
              && res.paa == r.session.bearer.subscriberIP && res.paa in r.leased
              && res.bearerContext.ebi == s.bearer.ebi
  {
    match env.getSubscriberIP(cfg.ueSubnet)
    case Failure(_) => Generated(s, leased, Failed(RequiredParameterMissing))
    case Success(ip) =>
      var s1 := s.(bearer := s.bearer.(subscriberIP := ip));
      var leased1 := leased + {ip};
      if req.pgwS5S8FteidC.None? then Generated(s1, leased1, Crashed)
      else
        var (v4, v6) := PgwAddresses(req.pgwS5S8FteidC.value);
        if v4 == "" && v6 == "" then Generated(s1, leased1, Failed(RequiredIEMissing(IeFteid)))
        else if |cfg.upfs| == 0 then Generated(s1, leased1, Crashed)
        else
          var cIP := HostPart(cfg.s11Addr);
          var uIP := HostPart(cfg.upfs[0].s1uAddr);
          match env.newSenderFteid(cIP, "")
          case None => Generated(s1, leased1, Failed(Plain(ErrNoS11Fteid)))
          case Some(s11) =>
            var s2 := s1.(roles := s1.roles[IfS11S4SgwGtpC := s11.teid]);
            if env.selectUPlane == "" then Generated(s2, leased1, Failed(Plain(ErrNoUserPlanes)))
            else
              match env.newFteid(env.selectUPlane, IfS1uSgwGtpU, uIP, "")
              case None => Generated(s2, leased1, Failed(Plain(ErrNoS1uFteid)))
              case Some(s1u) =>
                var s3 := s2.(roles := s2.roles[IfS1uSgwGtpU := s1u.teid]);
                var res := CreateSessionResponse(
                  TeidOrZero(s3.roles, IfS11MmeGtpC), 0,
                  CauseRequestAccepted,
                  s11,
                  Fteid(IfS5S8PgwGtpC, s11.teid, v4, v6, 1),
                  ip,
                  ApnRestrictionNone,
                  BearerContextCreated(
                    CauseRequestAccepted,
                    s3.bearer.ebi,
                    s1u,
                    Fteid(IfS5S8PgwGtpU, s1u.teid, v4, v6, 2)));
                Generated(s3, leased1, Built(res))
  }

  // ---------------------------------------------------------------------
  // Handlers
  // ---------------------------------------------------------------------

  /** The session object `ParseCreateSession` builds for a request from `peer`. */
  function NewSession(id: nat, peer: Addr, p: ParsedSession): Session
  {
    Session(id, peer, p.imsi, p.roles, Bearer(p.ebi, ""), false)
  }

  /** A session that finished the Create procedure: active, with both TEIDs
      this gateway allocates recorded, and holding a leased address. */
  predicate Committed(s: Session, leased: set<string>)
  {
    && s.active
    && IfS11S4SgwGtpC in s.roles && IfS1uSgwGtpU in s.roles
    && s.bearer.subscriberIP in leased
  }

  /** The generator's run for the session `ParseCreateSession` built from a
      Create request: a fresh session object from `peer`, against the current
      leases. */
  function CreateAttempt(gw: Gateway, cfg: Config, env: Collaborators, peer: Addr, p: ParsedSession, req: CreateSessionRequest): Generated
  {
    GenCSRes(cfg, env, gw.leased, NewSession(gw.nextId, peer, p), req)
  }

  /** `handleCreateSessionRequest`: parse, generate the response, send it,
      then activate. A generation or send failure removes the session; only a
      successful send leads to activation. */
  function HandleCreate(gw: Gateway, cfg: Config, env: Collaborators, peer: Addr, req: CreateSessionRequest): (r: Transition)
    ensures gw.leased <= r.gw.leased
    ensures ParseCSReq(peer, req, env.parseCreateSession).Success? && env.getSubscriberIP(cfg.ueSubnet).Success? ==>
              env.getSubscriberIP(cfg.ueSubnet).value in r.gw.leased
    ensures Valid(gw) ==> Valid(r.gw)
    ensures Valid(gw) ==> forall x :: x in gw.sessions ==> x in r.gw.sessions
    ensures Valid(gw) && !env.registers ==> r.gw.sessions == gw.sessions
    ensures ParseCSReq(peer, req, env.parseCreateSession).Success? ==>
              var g := CreateAttempt(gw, cfg, env, peer, ParseCSReq(peer, req, env.parseCreateSession).value, req);
              && (g.outcome.Crashed? ==> r.response.None? && r.exit == Panicked)
              && (g.outcome.Failed? ==>
                    && r.response.None? && r.exit == ReturnErr(g.outcome.error)
                    && (Valid(gw) ==> r.gw.sessions == gw.sessions))
              && (g.outcome.Built? ==> r.response == Some(CreateSessionRes(g.outcome.response)))
              && (g.outcome.Built? && env.respondTo.Some? ==>
                    && r.exit == ReturnErr(env.respondTo.value)
                    && (Valid(gw) ==> r.gw.sessions == gw.sessions))
              && (g.outcome.Built? && env.respondTo.None? && env.activate.Some? ==>
                    r.exit == ReturnErr(env.activate.value))
              && (g.outcome.Built? && env.respondTo.None? && env.activate.None? ==>
                    && r.exit == ReturnNil
                    && r.gw.sessions == (if env.registers then gw.sessions + [g.session.(active := true)] else gw.sessions))
    ensures r.exit == ReturnNil ==>
              r.response.Some? && r.response.value.CreateSessionRes? && env.respondTo.None? && env.activate.None?
    ensures r.exit == ReturnNil && env.registers ==>
              && |r.gw.sessions| == |gw.sessions| + 1
              && r.gw.sessions[..|gw.sessions|] == gw.sessions
              && var s := r.gw.sessions[|gw.sessions|];
              && s.id == gw.nextId && s.peer == peer
              && Committed(s, r.gw.leased)
              && r.response.value.csr.teid == TeidOrZero(s.roles, IfS11MmeGtpC)
    ensures forall s :: s in r.gw.sessions && s !in gw.sessions && s.active ==> r.exit == ReturnNil
  {
    match ParseCSReq(peer, req, env.parseCreateSession)
    case Failure(e) => Transition(gw, None, ReturnErr(e))
    case Success(p) =>
      var g := CreateAttempt(gw, cfg, env, peer, p, req);
      var stored := if env.registers then gw.sessions + [g.session] else gw.sessions;
      var rolledBack := Remove(stored, gw.nextId);
      var next := gw.nextId + 1;
      assert Valid(gw) ==> rolledBack == gw.sessions by {
        if Valid(gw) {
          if env.registers {
            RemoveLastFresh(gw.sessions, g.session);
          } else {
            RemoveAbsent(gw.sessions, gw.nextId);
          }
        }
      }
      match g.outcome
      case Crashed => Transition(Gateway(stored, g.leased, next), None, Panicked)
      case Failed(e) => Transition(Gateway(rolledBack, g.leased, next), None, ReturnErr(e))
      case Built(res) =>
        if env.respondTo.Some? then
          Transition(Gateway(rolledBack, g.leased, next), Some(CreateSessionRes(res)), ReturnErr(env.respondTo.value))
        else if env.activate.Some? then
          Transition(Gateway(stored, g.leased, next), Some(CreateSessionRes(res)), ReturnErr(env.activate.value))
        else
          var active := g.session.(active := true);
          assert (gw.sessions + [active])[..|gw.sessions|] == gw.sessions;
          var committed := if env.registers then gw.sessions + [active] else gw.sessions;
          Transition(Gateway(committed, g.leased, next), Some(CreateSessionRes(res)), ReturnNil)
  }

  /** `handleModifyBearerRequest`: accepts the message and does nothing. */
  function HandleModify(gw: Gateway, peer: Addr): (r: Transition)
    ensures r.gw == gw && r.response.None? && r.exit == ReturnNil
  {
    Transition(gw, None, ReturnNil)
  }

  /** `handleDeleteSessionRequest` for a request from `peer` whose header
      carries `teid`; `env.respondTo` is the outcome of the one send. */
  function HandleDelete(gw: Gateway, env: Collaborators, peer: Addr, teid: Teid): (r: Transition)
    ensures r.gw.leased == gw.leased && r.gw.nextId == gw.nextId
    ensures (forall i :: 0 <= i < |gw.sessions| ==> !Holds(gw.sessions[i], peer, teid)) <==>
              r.response == Some(DeleteSessionRes(DeleteSessionResponse(0, 0, CauseImsiImeiNotKnown)))
    ensures r.gw.sessions != gw.sessions ==> r.exit == ReturnNil && r.response.Some? && env.respondTo.None?
    ensures r.response.Some? && r.response.value.DeleteSessionRes? && r.response.value.dsr.cause == CauseRequestAccepted ==>
              exists s :: s in gw.sessions && Holds(s, peer, teid) && IfS5S8SgwGtpC in s.roles &&
                          r.response.value.dsr.teid == s.roles[IfS5S8SgwGtpC]
    ensures DistinctIds(gw.sessions) ==> DistinctIds(r.gw.sessions)
    ensures forall s :: s in r.gw.sessions ==> s in gw.sessions
  {
    match Lookup(gw.sessions, peer, teid)
    case None =>
      var dsr := DeleteSessionResponse(0, 0, CauseImsiImeiNotKnown);
      var err := if env.respondTo.Some? then env.respondTo.value else SessionNotFound(teid, peer);
      Transition(gw, Some(DeleteSessionRes(dsr)), ReturnErr(err))
    case Some(i) =>
      var s := gw.sessions[i];
      if IfS5S8SgwGtpC !in s.roles then Transition(gw, None, ReturnNil)
      else
        var dsr := DeleteSessionResponse(s.roles[IfS5S8SgwGtpC], 0, CauseRequestAccepted);
        if env.respondTo.Some? then Transition(gw, Some(DeleteSessionRes(dsr)), ReturnErr(env.respondTo.value))
        else Transition(gw.(sessions := Remove(gw.sessions, s.id)), Some(DeleteSessionRes(dsr)), ReturnNil)
  }
}

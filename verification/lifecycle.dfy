/** Properties of the session procedures that relate several calls, or that
    restate one call against an independent description of it. */
module Lifecycle {
  import opened Types
  import opened Gtp
  import opened Messages
  import opened Sessions
  import opened Handlers

  // ---------------------------------------------------------------------
  // Validation
  // ---------------------------------------------------------------------

  /** A request whose first absent mandatory IE is the APN is rejected with
      the APN Restriction type code, not the APN code. */
  lemma MissingApnReportsApnRestriction(peer: Addr, req: CreateSessionRequest, parse: (Addr, seq<IE>) -> Result<ParsedSession>)
    requires req.imsi.Some? && req.msisdn.Some? && req.mei.Some? && req.apn.None?
    ensures ParseCSReq(peer, req, parse) == Failure(RequiredIEMissing(IeApnRestriction))
    ensures IeApnRestriction != IeApn
  {
    assert FirstAbsent(RequiredTable(req), 3);
  }

  /** The first absent IE, when there is one. */
  lemma SomeFirstAbsent(req: CreateSessionRequest) returns (k: int)
    requires !AllPresent(req)
    ensures FirstAbsent(RequiredTable(req), k)
  {
    var t := RequiredTable(req);
    k := 0;
    while t[k].ie.Some?
      invariant 0 <= k < |t|
      invariant forall j :: 0 <= j < k ==> t[j].ie.Some?
      decreases |t| - k
    {
      if k == |t| - 1 {
        assert false;
      }
      k := k + 1;
    }
  }

  /** When a mandatory IE is absent the codec's parser is never consulted:
      the outcome is the same failure whatever the parser would answer. */
  lemma ParseSkipsCodecWhenIEMissing(peer: Addr, req: CreateSessionRequest,
                                     parse1: (Addr, seq<IE>) -> Result<ParsedSession>,
                                     parse2: (Addr, seq<IE>) -> Result<ParsedSession>)
    requires !AllPresent(req)
    ensures ParseCSReq(peer, req, parse1) == ParseCSReq(peer, req, parse2)
    ensures ParseCSReq(peer, req, parse1).Failure?
    ensures ParseCSReq(peer, req, parse1).error.RequiredIEMissing?
  {
    var k := SomeFirstAbsent(req);
  }

  // ---------------------------------------------------------------------
  // Response generation as an ordered list of steps
  // ---------------------------------------------------------------------

  /** One step of the generator: whether it passes for the given
      collaborators and request, and what the generator yields when it is
      the first step to fail. */
  datatype Step = Step(passes: bool, failure: GenOutcome)

  function S11Allocation(cfg: Config, env: Collaborators): Option<Fteid>
  {
    env.newSenderFteid(HostPart(cfg.s11Addr), "")
  }

  function S1uAllocation(cfg: Config, env: Collaborators): Option<Fteid>
    requires |cfg.upfs| > 0
  {
    env.newFteid(env.selectUPlane, IfS1uSgwGtpU, HostPart(cfg.upfs[0].s1uAddr), "")
  }

  /** The generator's steps in the order they run. */
  function GenSteps(cfg: Config, env: Collaborators, req: CreateSessionRequest): seq<Step>
  {
    [ Step(env.getSubscriberIP(cfg.ueSubnet).Success?, Failed(RequiredParameterMissing)),
      Step(req.pgwS5S8FteidC.Some?, Crashed),
      Step(req.pgwS5S8FteidC.Some? && PgwAddresses(req.pgwS5S8FteidC.value) != ("", ""),
           Failed(RequiredIEMissing(IeFteid))),
      Step(|cfg.upfs| > 0, Crashed),
      Step(S11Allocation(cfg, env).Some?, Failed(Plain(ErrNoS11Fteid))),
      Step(env.selectUPlane != "", Failed(Plain(ErrNoUserPlanes))),
      Step(|cfg.upfs| > 0 && S1uAllocation(cfg, env).Some?, Failed(Plain(ErrNoS1uFteid))) ]
  }

  /** The first `n` steps all pass. */
  predicate PassedThrough(st: seq<Step>, n: int)
  {
    forall j :: 0 <= j < n && j < |st| ==> st[j].passes
  }

  predicate FailsFirst(st: seq<Step>, k: int)
  {
    0 <= k < |st| && !st[k].passes && PassedThrough(st, k)
  }

  /** The generator runs its steps in order: it builds a response exactly
      when every step passes, and otherwise yields the outcome of the first
      step that fails. */
  lemma GenCSResFollowsSteps(cfg: Config, env: Collaborators, leased: set<string>, s: Session, req: CreateSessionRequest)
    ensures var st := GenSteps(cfg, env, req);
            var r := GenCSRes(cfg, env, leased, s, req);
            && (r.outcome.Built? <==> PassedThrough(st, |st|))
            && (forall k :: FailsFirst(st, k) ==> r.outcome == st[k].failure)
  {
    var st := GenSteps(cfg, env, req);
    var r := GenCSRes(cfg, env, leased, s, req);
    if st[0].passes && st[1].passes && st[2].passes && st[3].passes && st[4].passes && st[5].passes && st[6].passes {
      assert PassedThrough(st, |st|);
    } else {
      assert !PassedThrough(st, |st|);
    }
    forall k | FailsFirst(st, k) ensures r.outcome == st[k].failure {
      assert forall j :: 0 <= j < k ==> st[j].passes;
      if k == 0 {
      } else if k == 1 {
        assert st[0].passes;
      } else if k == 2 {
        assert st[0].passes && st[1].passes;
      } else if k == 3 {
        assert st[0].passes && st[1].passes && st[2].passes;
      } else if k == 4 {
        assert st[0].passes && st[1].passes && st[2].passes && st[3].passes;
      } else if k == 5 {
        assert st[0].passes && st[1].passes && st[2].passes && st[3].passes && st[4].passes;
      } else {
        assert st[0].passes && st[1].passes && st[2].passes && st[3].passes && st[4].passes && st[5].passes;
      }
    }
  }

  /** Each TEID role is recorded exactly when every step up to and including
      its own allocation passes; an S11 binding made before a later failure
      stays on the session. */
  lemma GenCSResRecordsRolesOnSuccess(cfg: Config, env: Collaborators, leased: set<string>, s: Session, req: CreateSessionRequest)
    ensures var st := GenSteps(cfg, env, req);
            var r := GenCSRes(cfg, env, leased, s, req);
            && (!PassedThrough(st, 5) ==> r.session.roles == s.roles)
            && (PassedThrough(st, 5) && !PassedThrough(st, 7) ==>
                  && S11Allocation(cfg, env).Some?
                  && r.session.roles == s.roles[IfS11S4SgwGtpC := S11Allocation(cfg, env).value.teid])
            && (PassedThrough(st, 7) ==>
                  && S11Allocation(cfg, env).Some? && |cfg.upfs| > 0 && S1uAllocation(cfg, env).Some?
                  && r.session.roles == s.roles[IfS11S4SgwGtpC := S11Allocation(cfg, env).value.teid]
                                               [IfS1uSgwGtpU := S1uAllocation(cfg, env).value.teid])
  {
    var st := GenSteps(cfg, env, req);
    if PassedThrough(st, 5) {
      assert st[0].passes && st[1].passes && st[2].passes && st[3].passes && st[4].passes;
      if PassedThrough(st, 7) {
        assert st[5].passes && st[6].passes;
      }
    } else {
      GenCSResFollowsSteps(cfg, env, leased, s, req);
    }
  }

  /** On success the response is keyed to the MME by the S11 MME TEID the
      session recorded (0 when it recorded none), and the S5/S8 F-TEIDs
      reuse the TEIDs allocated for S11 and S1-U. */
  lemma CreateResponseReusesAllocatedTeids(cfg: Config, env: Collaborators, leased: set<string>, s: Session, req: CreateSessionRequest)
    requires PassedThrough(GenSteps(cfg, env, req), 7)
    ensures var r := GenCSRes(cfg, env, leased, s, req);
            && r.outcome.Built?
            && r.outcome.response.teid == TeidOrZero(s.roles, IfS11MmeGtpC)
            && r.outcome.response.senderFteidC == S11Allocation(cfg, env).value
            && r.outcome.response.bearerContext.s1uSgwFteid == S1uAllocation(cfg, env).value
            && var pgw := PgwAddresses(req.pgwS5S8FteidC.value);
            && r.outcome.response.pgwS5S8FteidC ==
                 Fteid(IfS5S8PgwGtpC, S11Allocation(cfg, env).value.teid, pgw.0, pgw.1, 1)
            && r.outcome.response.bearerContext.s5s8uPgwFteid ==
                 Fteid(IfS5S8PgwGtpU, S1uAllocation(cfg, env).value.teid, pgw.0, pgw.1, 2)
            && r.outcome.response.paa == env.getSubscriberIP(cfg.ueSubnet).value
  {
    var st := GenSteps(cfg, env, req);
    assert st[0].passes && st[1].passes && st[2].passes && st[3].passes;
    assert st[4].passes && st[5].passes && st[6].passes;
  }

  // ---------------------------------------------------------------------
  // Create Session
  // ---------------------------------------------------------------------

  /** A request that fails validation or parsing leaves the gateway exactly
      as it was and is not answered. */
  lemma CreateParseFailureLeavesNoTrace(gw: Gateway, cfg: Config, env: Collaborators, peer: Addr, req: CreateSessionRequest)
    requires ParseCSReq(peer, req, env.parseCreateSession).Failure?
    ensures var r := HandleCreate(gw, cfg, env, peer, req);
            r.gw == gw && r.response.None? && r.exit == ReturnErr(ParseCSReq(peer, req, env.parseCreateSession).error)
  {
  }

  /** When generation fails, or the response cannot be sent, the new session
      is removed again and the store is exactly as before, but the
      subscriber address the attempt leased stays leased. The generator's
      error is returned unanswered; a send error is returned after the
      response was handed over. */
  lemma CreateRollbackKeepsLease(gw: Gateway, cfg: Config, env: Collaborators, peer: Addr, req: CreateSessionRequest)
    requires Valid(gw)
    requires ParseCSReq(peer, req, env.parseCreateSession).Success?
    requires env.getSubscriberIP(cfg.ueSubnet).Success?
    requires var g := CreateAttempt(gw, cfg, env, peer, ParseCSReq(peer, req, env.parseCreateSession).value, req);
             g.outcome.Failed? || (g.outcome.Built? && env.respondTo.Some?)
    ensures var g := CreateAttempt(gw, cfg, env, peer, ParseCSReq(peer, req, env.parseCreateSession).value, req);
            var r := HandleCreate(gw, cfg, env, peer, req);
            && r.gw.sessions == gw.sessions
            && (g.outcome.Failed? ==> r.response.None? && r.exit == ReturnErr(g.outcome.error))
            && (g.outcome.Built? ==>
                  r.response == Some(CreateSessionRes(g.outcome.response)) && r.exit == ReturnErr(env.respondTo.value))
            && env.getSubscriberIP(cfg.ueSubnet).value in r.gw.leased
            && (env.getSubscriberIP(cfg.ueSubnet).value !in gw.leased ==> r.gw.leased != gw.leased)
  {
  }

  /** A session becomes active only on the path where the response was sent
      successfully and activation succeeded; then it is committed. */
  lemma CreateActivatesOnlyAfterSend(gw: Gateway, cfg: Config, env: Collaborators, peer: Addr, req: CreateSessionRequest)
    requires Valid(gw)
    ensures var r := HandleCreate(gw, cfg, env, peer, req);
            forall s :: s in r.gw.sessions && s.active && s !in gw.sessions ==>
              && env.respondTo.None? && env.activate.None?
              && r.response.Some?
              && Committed(s, r.gw.leased)
  {
  }

  /** When the response was sent but activation fails, the activation error
      is returned and nothing removes the session on this path: when parsing
      registered it, it stays registered, inactive; otherwise the store is
      unchanged. */
  lemma CreateActivationFailureKeepsInactiveSession(gw: Gateway, cfg: Config, env: Collaborators, peer: Addr, req: CreateSessionRequest)
    requires ParseCSReq(peer, req, env.parseCreateSession).Success?
    requires PassedThrough(GenSteps(cfg, env, req), 7)
    requires env.respondTo.None? && env.activate.Some?
    ensures var r := HandleCreate(gw, cfg, env, peer, req);
            && r.exit == ReturnErr(env.activate.value)
            && r.response.Some?
            && (!env.registers ==> r.gw.sessions == gw.sessions)
            && (env.registers ==>
                  && |r.gw.sessions| == |gw.sessions| + 1
                  && var s := r.gw.sessions[|gw.sessions|];
                  && s.id == gw.nextId && !s.active
                  && IfS11S4SgwGtpC in s.roles && IfS1uSgwGtpU in s.roles)
  {
    var p := ParseCSReq(peer, req, env.parseCreateSession).value;
    GenCSResFollowsSteps(cfg, env, gw.leased, NewSession(gw.nextId, peer, p), req);
  }

  // ---------------------------------------------------------------------
  // Delete Session
  // ---------------------------------------------------------------------

  /** A Delete Session Request that matches no session is answered with
      "IMSI/IMEI not known" in a message with TEID 0, removes nothing, and
      returns the lookup error (or the send error when the answer could not
      be sent). */
  lemma DeleteUnknownSession(gw: Gateway, env: Collaborators, peer: Addr, teid: Teid)
    requires forall s :: s in gw.sessions ==> !Holds(s, peer, teid)
    ensures var r := HandleDelete(gw, env, peer, teid);
            && r.gw == gw
            && r.response == Some(DeleteSessionRes(DeleteSessionResponse(0, 0, CauseImsiImeiNotKnown)))
            && r.exit == ReturnErr(if env.respondTo.Some? then env.respondTo.value else SessionNotFound(teid, peer))
  {
  }

  /** A session that never recorded an S5/S8 SGW GTP-C TEID is never removed
      by a Delete Session Request, whatever the request and the send
      outcome. */
  lemma DeleteKeepsSessionsWithoutS5S8Role(gw: Gateway, env: Collaborators, peer: Addr, teid: Teid, s: Session)
    requires DistinctIds(gw.sessions)
    requires s in gw.sessions && IfS5S8SgwGtpC !in s.roles
    ensures s in HandleDelete(gw, env, peer, teid).gw.sessions
  {
  }

  /** A matching session without an S5/S8 SGW GTP-C TEID makes the handler
      return nil without answering and without removing anything. */
  lemma DeleteUnboundRoleIsSilent(gw: Gateway, env: Collaborators, peer: Addr, teid: Teid)
    requires Lookup(gw.sessions, peer, teid).Some?
    requires IfS5S8SgwGtpC !in gw.sessions[Lookup(gw.sessions, peer, teid).value].roles
    ensures HandleDelete(gw, env, peer, teid) == Transition(gw, None, ReturnNil)
  {
  }

  /** When the answer to a matching session cannot be sent, the send error
      is returned and the session is left in place. */
  lemma DeleteSendFailureKeepsSession(gw: Gateway, env: Collaborators, peer: Addr, teid: Teid)
    requires env.respondTo.Some?
    requires Lookup(gw.sessions, peer, teid).Some?
    requires IfS5S8SgwGtpC in gw.sessions[Lookup(gw.sessions, peer, teid).value].roles
    ensures var found := gw.sessions[Lookup(gw.sessions, peer, teid).value];
            var r := HandleDelete(gw, env, peer, teid);
            && r.gw == gw
            && r.exit == ReturnErr(env.respondTo.value)
            && r.response == Some(DeleteSessionRes(DeleteSessionResponse(found.roles[IfS5S8SgwGtpC], 0, CauseRequestAccepted)))
  {
  }

  /** When a known session with an S5/S8 SGW GTP-C TEID is deleted and the
      answer is sent, exactly that session disappears. */
  lemma DeleteRemovesExactlyTheFoundSession(gw: Gateway, env: Collaborators, peer: Addr, teid: Teid)
    requires DistinctIds(gw.sessions)
    requires env.respondTo.None?
    requires Lookup(gw.sessions, peer, teid).Some?
    requires IfS5S8SgwGtpC in gw.sessions[Lookup(gw.sessions, peer, teid).value].roles
    ensures var found := gw.sessions[Lookup(gw.sessions, peer, teid).value];
            var r := HandleDelete(gw, env, peer, teid);
            && r.exit == ReturnNil
            && r.response == Some(DeleteSessionRes(DeleteSessionResponse(found.roles[IfS5S8SgwGtpC], 0, CauseRequestAccepted)))
            && forall x :: x in r.gw.sessions <==> x in gw.sessions && x != found
  {
  }

  /** Deleting the only session that matches a request, then repeating the
      same request, gets "IMSI/IMEI not known" the second time and changes
      nothing more. */
  lemma RepeatedDeleteIsNotKnown(gw: Gateway, env1: Collaborators, env2: Collaborators, peer: Addr, teid: Teid)
    requires DistinctIds(gw.sessions)
    requires forall i, j :: 0 <= i < j < |gw.sessions| ==> !(Holds(gw.sessions[i], peer, teid) && Holds(gw.sessions[j], peer, teid))
    requires env1.respondTo.None?
    requires Lookup(gw.sessions, peer, teid).Some?
    requires IfS5S8SgwGtpC in gw.sessions[Lookup(gw.sessions, peer, teid).value].roles
    ensures var first := HandleDelete(gw, env1, peer, teid);
            var second := HandleDelete(first.gw, env2, peer, teid);
            && second.gw == first.gw
            && second.response == Some(DeleteSessionRes(DeleteSessionResponse(0, 0, CauseImsiImeiNotKnown)))
            && second.gw.leased == gw.leased
  {
    var i := Lookup(gw.sessions, peer, teid).value;
    var found := gw.sessions[i];
    DeleteRemovesExactlyTheFoundSession(gw, env1, peer, teid);
    var first := HandleDelete(gw, env1, peer, teid);
    forall x | x in first.gw.sessions ensures !Holds(x, peer, teid) {
      var k :| 0 <= k < |gw.sessions| && gw.sessions[k] == x;
      assert k != i;
      if k < i {
        assert !Holds(gw.sessions[k], peer, teid);
      } else {
        assert !(Holds(gw.sessions[i], peer, teid) && Holds(gw.sessions[k], peer, teid));
      }
    }
    assert forall j :: 0 <= j < |first.gw.sessions| ==> !Holds(first.gw.sessions[j], peer, teid);
  }

  // ---------------------------------------------------------------------
  // Any sequence of procedures
  // ---------------------------------------------------------------------

  /** One inbound procedure with the outcomes of the collaborators it calls. */
  datatype Event =
    | CreateEvent(cfg: Config, env: Collaborators, peer: Addr, req: CreateSessionRequest)
    | ModifyEvent(peer: Addr)
    | DeleteEvent(env: Collaborators, peer: Addr, teid: Teid)

  function Apply(gw: Gateway, e: Event): Gateway
  {
    match e
    case CreateEvent(cfg, env, peer, req) => HandleCreate(gw, cfg, env, peer, req).gw
    case ModifyEvent(peer) => HandleModify(gw, peer).gw
    case DeleteEvent(env, peer, teid) => HandleDelete(gw, env, peer, teid).gw
  }

  function Run(gw: Gateway, events: seq<Event>): Gateway
    decreases |events|
  {
    if |events| == 0 then gw else Run(Apply(gw, events[0]), events[1..])
  }

  /** One procedure keeps the store valid and releases no address. */
  lemma ApplyNeverReleasesAddresses(gw: Gateway, e: Event)
    requires Valid(gw)
    ensures Valid(Apply(gw, e))
    ensures gw.leased <= Apply(gw, e).leased
  {
  }

  /** Whatever procedures run, in whatever order and with whatever
      collaborator outcomes, the store stays valid and no leased subscriber
      address is ever released. */
  lemma {:induction false} RunNeverReleasesAddresses(gw: Gateway, events: seq<Event>)
    requires Valid(gw)
    ensures Valid(Run(gw, events))
    ensures gw.leased <= Run(gw, events).leased
    decreases |events|
  {
    if |events| > 0 {
      ApplyNeverReleasesAddresses(gw, events[0]);
      RunNeverReleasesAddresses(Apply(gw, events[0]), events[1..]);
    }
  }
  // ---------------------------------------------------------------------
  // Create followed by later procedures
  // ---------------------------------------------------------------------

  /** A stored session without an S5/S8 SGW GTP-C TEID survives any one
      procedure: Create never drops a stored session, and Delete removes only
      a session holding that role. */
  lemma ApplyKeepsSessionsWithoutS5S8Role(gw: Gateway, e: Event, s: Session)
    requires Valid(gw)
    requires s in gw.sessions && IfS5S8SgwGtpC !in s.roles
    ensures s in Apply(gw, e).sessions
  {
    if e.DeleteEvent? {
      DeleteKeepsSessionsWithoutS5S8Role(gw, e.env, e.peer, e.teid, s);
    }
  }

  /** ... and so it survives any sequence of procedures. */
  lemma {:induction false} RunKeepsSessionsWithoutS5S8Role(gw: Gateway, events: seq<Event>, s: Session)
    requires Valid(gw)
    requires s in gw.sessions && IfS5S8SgwGtpC !in s.roles
    ensures s in Run(gw, events).sessions
    decreases |events|
  {
    if |events| > 0 {
      ApplyNeverReleasesAddresses(gw, events[0]);
      ApplyKeepsSessionsWithoutS5S8Role(gw, events[0], s);
      RunKeepsSessionsWithoutS5S8Role(Apply(gw, events[0]), events[1..], s);
    }
  }

  /** When every generator step passes and the send and activation succeed,
      the Create handler returns nil. It records only the S11/S4 SGW GTP-C
      and S1-U SGW GTP-U roles, so when parsing registered the session and
      its parsed roles lack S5/S8 SGW GTP-C, the committed session stays in
      the store, active, whatever Create, Modify and Delete procedures
      follow. */
  lemma CreatedSessionSurvivesDelete(gw: Gateway, cfg: Config, env: Collaborators, peer: Addr,
                                     req: CreateSessionRequest, events: seq<Event>)
    requires Valid(gw)
    requires env.registers
    requires ParseCSReq(peer, req, env.parseCreateSession).Success?
    requires IfS5S8SgwGtpC !in ParseCSReq(peer, req, env.parseCreateSession).value.roles
    requires PassedThrough(GenSteps(cfg, env, req), 7)
    requires env.respondTo.None? && env.activate.None?
    ensures var created := HandleCreate(gw, cfg, env, peer, req);
            && created.exit == ReturnNil
            && |created.gw.sessions| == |gw.sessions| + 1
            && var s := created.gw.sessions[|gw.sessions|];
            && s.active
            && s in Run(created.gw, events).sessions
  {
    var created := HandleCreate(gw, cfg, env, peer, req);
    var p := ParseCSReq(peer, req, env.parseCreateSession).value;
    GenCSResFollowsSteps(cfg, env, gw.leased, NewSession(gw.nextId, peer, p), req);
    var s := created.gw.sessions[|gw.sessions|];
    assert s.roles.Keys <= p.roles.Keys + {IfS11S4SgwGtpC, IfS1uSgwGtpU};
    RunKeepsSessionsWithoutS5S8Role(created.gw, events, s);
  }

  /** The Delete handler's answer, exit and resulting store depend on the
      stored sessions alone, not on the leases or the identity counter. */
  lemma DeleteReadsOnlySessions(g1: Gateway, g2: Gateway, env: Collaborators, peer: Addr, teid: Teid)
    requires g1.sessions == g2.sessions
    ensures HandleDelete(g1, env, peer, teid).response == HandleDelete(g2, env, peer, teid).response
    ensures HandleDelete(g1, env, peer, teid).exit == HandleDelete(g2, env, peer, teid).exit
    ensures HandleDelete(g1, env, peer, teid).gw.sessions == HandleDelete(g2, env, peer, teid).gw.sessions
  {
  }

  /** When parsing does not register the session, a Create changes no stored
      session, so every later Delete Session Request is answered exactly as
      it would have been without the Create. */
  lemma UnregisteredCreateIsInvisibleToDelete(gw: Gateway, cfg: Config, env: Collaborators, peer: Addr,
                                              req: CreateSessionRequest, denv: Collaborators, dpeer: Addr, dteid: Teid)
    requires Valid(gw)
    requires !env.registers
    ensures var created := HandleCreate(gw, cfg, env, peer, req);
            var after := HandleDelete(created.gw, denv, dpeer, dteid);
            var before := HandleDelete(gw, denv, dpeer, dteid);
            && after.response == before.response
            && after.exit == before.exit
            && after.gw.sessions == before.gw.sessions
  {
    var created := HandleCreate(gw, cfg, env, peer, req);
    DeleteReadsOnlySessions(created.gw, gw, denv, dpeer, dteid);
  }
}

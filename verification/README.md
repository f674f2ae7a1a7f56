# spgwc session procedures in Dafny

This project models the GTPv2-C control logic of the `spgwc` combined
Serving/PDN gateway control plane: the three procedure handlers an MME talks
to (Create Session, Modify Bearer, Delete Session, after 3GPP TS 29.274
sections 7.2.1, 7.2.2, 7.2.7, 7.2.9.1 and 7.2.10.1) together with the
validation and response-generation steps of Create Session.

Each handler is a pure transition

    (gateway state, request, collaborator outcomes) -> (state', response handed to RespondTo, exit)

where the gateway state (`Sessions.Gateway`) is the sequence of sessions the
GTP connection knows, each with its interface-type-to-TEID map and active
flag, plus the set of leased subscriber addresses. `exit` is what the handler
returns: nil, an error, or a panic.

Everything the handlers call and cannot see is an explicit input
(`Handlers.Collaborators`): the codec's `ParseCreateSession`, the address
pool behind `getSubscriberIP`, the TEID allocators `NewSenderFTEID` and
`NewFTEID`, `selectUPlane`, the outcome of `RespondTo`, the outcome of
`Session.Activate`, and whether `ParseCreateSession` registers the session
it builds with the connection. Collaborators whose arguments matter are functions of
those arguments, so the model can state what they are called with.

Files:

- `types.dfy`: fixed-width integers, `Option`/`Result`, handler errors and
  exits (module `Types`); the TS 29.274 constants used (module `Gtp`: IE type
  codes, F-TEID interface types, cause values 16 and 96).
- `messages.dfy`: abstract requests, responses and F-TEIDs (module `Messages`).
- `sessions.dfy`: sessions, the store, lookup by peer and TEID, removal, and
  the store invariant (module `Sessions`).
- `handlers.dfy`: `parseCSReq`, `genCSRes` and the three handlers (module
  `Handlers`).
- `lifecycle.dfy`: properties relating several calls, or one call to an
  independent description of it (module `Lifecycle`).

Modelling choices worth knowing:

- `handlers.go` never adds a session to the connection itself: the comment
  "Activate and add session" is followed by activation only. Whether the
  session is in the store therefore depends on the library's
  `ParseCreateSession`, which is not part of this model. Both readings are
  modelled (`Collaborators.registers`). If parsing registers the session,
  the Create handler's `RemoveSession` calls undo that registration, and a
  committed session stays stored. If it does not, those calls remove
  nothing, a Create changes no stored session, and no later Delete Session
  Request can find what it created.
- `GetSessionByTEID(teid, peer)` is modelled as the first stored session
  that came from `peer` and records `teid` under some interface type. How the
  library indexes sessions is not part of this model.
- `GetTEID` on an unrecorded interface type yields 0 (the value beside its
  error); `genCSRes` ignores that error, so the response header TEID is 0
  when the session recorded no S11 MME TEID.
- An absent PGW S5/S8-C F-TEID makes `genCSRes` call `HasIPv4` on a nil IE,
  and an empty `UPFs` list makes `cfg.UPFs[0]` index out of range; both are
  modelled as a panic (`Crashed` / `Panicked`), reached after the subscriber
  address was leased.
- The S1-U F-TEID address always comes from the first configured UPF, even
  when `selectUPlane` names another one.

The handlers differ from a conventional gateway in four ways, and the model
keeps each of them:

- No path releases a leased subscriber address, not even a rolled-back
  Create or a completed Delete.
- A second Create for the same subscriber does not replace the first
  session. When parsing registers sessions, both stay stored.
- The Delete handler keys its answer by the S5/S8 SGW GTP-C TEID, which the
  Create handler never records. A registered session created through this
  gateway is therefore never removed by any later procedure, unless its
  parsed roles already held that interface type.
- A failed Delete response leaves the session in place.

## Model

| member | source | states |
|---|---|---|
| Sessions.Lookup | handlers.go:152 | The session found for (TEID, peer) is the first stored one from that peer recording that TEID; no result exactly when no stored session matches. |
| Sessions.Remove | handlers.go:179 | After `RemoveSession` the store holds exactly the earlier sessions with another identity, and identities stay distinct. |
| Sessions.RemoveAbsent | handlers.go:129-134 | Removing a session object the store never held leaves the store exactly as it was. |
| Sessions.RemoveLastFresh | handlers.go:129-134 | Removing the session just registered under a fresh identity gives back exactly the store as it was before the request. |
| Handlers.RequiredTable | handlers.go:19-31 | The eight mandatory IEs in the order they are checked (IMSI, MSISDN, MEI, APN, serving network, RAT type, sender F-TEID, bearer context); all are present exactly when the request has every mandatory IE; each row reports a different type code; the APN row reports the APN Restriction code 127, not the APN code 71. |
| Handlers.CollectRequired | handlers.go:33-39 | Walking the mandatory-IE table succeeds exactly when every IE is present, collecting them in table order; otherwise it fails with the type code of the first absent row. |
| Handlers.ParseCSReq | handlers.go:18-46 | The first absent mandatory IE (IMSI, MSISDN, MEI, APN, serving network, RAT type, sender F-TEID, bearer context) yields `RequiredIEMissing` with that row's code; with all present, the result is the codec's answer for exactly those eight IEs, in that order, from that peer. |
| Handlers.HostPart | handlers.go:74-75 | The address used in an allocated F-TEID is the prefix of the configured address up to, not including, its first colon. |
| Handlers.PgwAddresses | handlers.go:62-68 | The v4 and v6 strings are the one address the codec reports for the PGW S5/S8-C F-TEID, each only under its own flag, so with both flags set they are the same address; both are empty exactly when no flag is set or the reported address is empty. |
| Handlers.GenCSRes | handlers.go:48-114 | A failed lease returns `RequiredParameterMissing` with nothing changed, and a successful lease is kept whatever happens later. A built response needs a present PGW S5/S8-C F-TEID with an address. The response carries the S11 MME TEID (or 0) in its header, sequence 0, cause Request Accepted twice, the leased address as PDN address allocation and APN restriction 0. Its S5/S8 PGW GTP-C F-TEID (instance 1) and S5/S8 PGW GTP-U F-TEID (instance 2) reuse the TEIDs recorded for S11/S4 SGW GTP-C and S1-U SGW GTP-U, and both echo the v4/v6 addresses of the request's PGW F-TEID. |
| Handlers.HandleCreate | handlers.go:116-143 | No address is released and no stored session is dropped. A generator panic answers nothing. A generator failure returns that error, answers nothing and leaves the store as before. A built response is always handed to the transport. A failed send returns the send error with the store as before. A failed activation returns the activation error. When the response is built and the send and activation succeed, the handler returns nil; the store gains the session, activated, if parsing registers sessions, and is otherwise unchanged. Conversely a nil return means send and activation succeeded, and under registration exactly one new committed session from that peer was appended. A new session is active only on the nil path. |
| Handlers.HandleModify | handlers.go:145-147 | Modify Bearer returns nil, answers nothing and changes no state. |
| Handlers.HandleDelete | handlers.go:149-181 | No address is released; the "IMSI/IMEI not known" answer with TEID 0 is sent exactly when no session matches; the store changes only after a successful send of an answer; an accepted answer carries a matching session's S5/S8 SGW GTP-C TEID. |
| Lifecycle.MissingApnReportsApnRestriction | handlers.go:23-26 | A request whose first absent mandatory IE is the APN is rejected with the APN Restriction type code (127), which differs from the APN code (71). |
| Lifecycle.ParseSkipsCodecWhenIEMissing | handlers.go:34-41 | With a mandatory IE absent, the result is a `RequiredIEMissing` failure that does not depend on the codec's parser at all. |
| Lifecycle.GenCSResFollowsSteps | handlers.go:52-92 | Against an independent ordered list of the seven generator steps (lease, F-TEID present, F-TEID address, UPF configured, S11 TEID, user plane, S1-U TEID): a response is built exactly when all pass, otherwise the outcome is that of the first failing step. |
| Lifecycle.GenCSResRecordsRolesOnSuccess | handlers.go:77-92 | The S11/S4 SGW role is recorded exactly when every step through its allocation passes, and it stays recorded when a later step fails; the S1-U role is recorded exactly when all steps pass; no other role changes. |
| Lifecycle.CreateResponseReusesAllocatedTeids | handlers.go:94-113 | When every step passes, the header TEID is the parsed S11 MME TEID (0 if none). The sender F-TEID and S1-U F-TEID are the allocators' own. The S5/S8 PGW GTP-C and GTP-U F-TEIDs carry the allocated S11 and S1-U TEIDs and the request's PGW v4/v6 addresses. The PDN address is the leased one. |
| Lifecycle.CreateParseFailureLeavesNoTrace | handlers.go:120-124 | A validation or parse failure returns that error with no response and no state change. |
| Lifecycle.CreateRollbackKeepsLease | handlers.go:126-136 | After a generation failure, or a built response whose send fails, the store is exactly as before, but the address the attempt leased stays leased. A generation failure returns that error with no response. A send failure returns the send error after the response was handed over. |
| Lifecycle.CreateActivatesOnlyAfterSend | handlers.go:133-142 | Any new active session implies the send and the activation both succeeded, and that session is committed (both allocated roles recorded, address leased). |
| Lifecycle.CreateActivationFailureKeepsInactiveSession | handlers.go:138-141 | After a successful send, a failed activation returns that error. Nothing removes the session: if parsing registered it, it stays stored, inactive, with both allocated roles recorded; otherwise the store is unchanged. |
| Lifecycle.DeleteUnknownSession | handlers.go:152-163 | An unmatched Delete is answered with cause IMSI/IMEI not known and TEID 0, changes nothing, and returns the lookup error, or the send error when the answer fails. |
| Lifecycle.DeleteKeepsSessionsWithoutS5S8Role | handlers.go:165-169 | A session without an S5/S8 SGW GTP-C TEID survives every Delete Session Request. |
| Lifecycle.DeleteUnboundRoleIsSilent | handlers.go:165-169 | A matching session without an S5/S8 SGW GTP-C TEID makes the handler return nil with no answer and no state change. |
| Lifecycle.DeleteSendFailureKeepsSession | handlers.go:170-176 | When the Request Accepted answer for a matching session cannot be sent, the send error is returned and nothing is removed. |
| Lifecycle.DeleteRemovesExactlyTheFoundSession | handlers.go:170-180 | For a found session with that role and a successful send: nil is returned, the answer is Request Accepted keyed by that TEID, and exactly that session leaves the store. |
| Lifecycle.RepeatedDeleteIsNotKnown | handlers.go:152-180 | Repeating a Delete that removed the only matching session gets "IMSI/IMEI not known" and changes nothing, leases included. |
| Lifecycle.CreatedSessionSurvivesDelete | handlers.go:116-181 | When every generator step passes and the send and activation succeed, Create returns nil and appends one session. If parsing registers sessions and the parsed roles lack S5/S8 SGW GTP-C (Create adds only S11/S4 SGW GTP-C and S1-U SGW GTP-U), that session stays stored and active through any later sequence of Create, Modify and Delete procedures. |
| Lifecycle.ApplyKeepsSessionsWithoutS5S8Role | handlers.go:116-181 | A stored session without an S5/S8 SGW GTP-C TEID survives any one Create, Modify or Delete procedure. |
| Lifecycle.RunKeepsSessionsWithoutS5S8Role | handlers.go:116-181 | A stored session without an S5/S8 SGW GTP-C TEID survives any sequence of procedures. |
| Lifecycle.DeleteReadsOnlySessions | handlers.go:149-181 | The Delete handler's answer, exit and resulting store depend on the stored sessions alone, not on the leases or the identity counter. |
| Lifecycle.UnregisteredCreateIsInvisibleToDelete | handlers.go:116-181 | When parsing does not register sessions, every Delete Session Request after a Create gets the same answer, exit and store as it would have without the Create. |
| Lifecycle.RunNeverReleasesAddresses | handlers.go:116-181 | Over any sequence of Create, Modify and Delete procedures with any collaborator outcomes, the store invariant holds and the leased address set only grows. |

## Left out

- Handlers.HandleCreate: whether go-gtp's `ParseCreateSession` registers the new session with the connection is not known from the modelled code. It is an input (`Collaborators.registers`), and the Create and Delete properties are stated for both readings. Properties about the committed session being stored hold only under the registering reading.
- Wire encoding and decoding of GTPv2-C messages and the binary layout of IEs: messages are abstract records with optional fields.
- The address pool wrapper over go-ipam (`ipam`, `newSPGWC`) and its prefix handling: leasing is the `getSubscriberIP` collaborator, modelled as its outcome.
- The TEID namespaces of `NewSenderFTEID` and `NewFTEID`: allocations are collaborator outputs; their uniqueness is not assumed.
- What `Session.Activate` checks: its outcome is an input, and a failed activation is modelled as leaving the session inactive.
- `GetSessionByTEID`'s internal indexing (see modelling choices above).
- The value `getSubscriberIP` returns beside an error, which Go assigns to the bearer: the model leaves the bearer unchanged on that path, which is then rolled back anyway.
- The sequence number 0 passed to the response constructors: the transport fills in the real one on sending.
- UDP resolve and listen, the goroutines, the `select` loop over the context and error channel, and `close`: I/O and concurrency.
- The three-entry handler registration in `run`: a fixed dispatch table owned by the library.
- The `setupUPlane` stub, which nothing calls.
- `main` (flags, signals, the fatal and warning channel loop) and `loadConfig` (YAML decoding).
- The log calls.
- Per-key locking and parallel handler execution: handlers are sequential transitions.
- The table-driven test skeletons, which contain no cases.

/** The gateway's mutable state, as immutable values: the sessions the
    connection knows (in registration order), each with its role-to-TEID map,
    the set of leased subscriber addresses, and a counter that stands for the
    identity of freshly allocated session objects. */
module Sessions {
  import opened Types

  datatype Bearer = Bearer(ebi: uint8, subscriberIP: string)

  /** One subscriber's session. `id` stands for the identity of the session
      object; `roles` maps an interface type to the TEID recorded under it. */
  datatype Session = Session(
    id: nat,
    peer: Addr,
    imsi: string,
    roles: map<IfType, Teid>,
    bearer: Bearer,
    active: bool)

  datatype Gateway = Gateway(sessions: seq<Session>, leased: set<string>, nextId: nat)

  /** The session came from `peer` and records `teid` under some role. */
  predicate Holds(s: Session, peer: Addr, teid: Teid)
  {
    s.peer == peer && teid in s.roles.Values
  }

  /** `GetTEID`: the TEID recorded under a role, or 0 when the role was never
      recorded (the value the library returns beside its error). */
  function TeidOrZero(roles: map<IfType, Teid>, role: IfType): Teid
  {
    if role in roles then roles[role] else 0
  }

  predicate DistinctIds(ss: seq<Session>)
  {
    forall i, j :: 0 <= i < j < |ss| ==> ss[i].id != ss[j].id
  }

  /** The store's invariant: one entry per session object, and every stored
      id was handed out before. */
  predicate Valid(gw: Gateway)
  {
    && DistinctIds(gw.sessions)
    && forall i :: 0 <= i < |gw.sessions| ==> gw.sessions[i].id < gw.nextId
  }

  /** `GetSessionByTEID`: the position of the first stored session from
      `peer` that records `teid`, or None when there is none. */
  function Lookup(ss: seq<Session>, peer: Addr, teid: Teid): (r: Option<nat>)
    ensures r.None? <==> forall i :: 0 <= i < |ss| ==> !Holds(ss[i], peer, teid)
    ensures r.Some? ==> r.value < |ss| && Holds(ss[r.value], peer, teid)
    ensures r.Some? ==> forall j :: 0 <= j < r.value ==> !Holds(ss[j], peer, teid)
  {
    LookupFrom(ss, peer, teid, 0)
  }

  function LookupFrom(ss: seq<Session>, peer: Addr, teid: Teid, k: nat): (r: Option<nat>)
    requires k <= |ss|
    requires forall j :: 0 <= j < k ==> !Holds(ss[j], peer, teid)
    ensures r.None? <==> forall i :: k <= i < |ss| ==> !Holds(ss[i], peer, teid)
    ensures r.Some? ==> k <= r.value < |ss| && Holds(ss[r.value], peer, teid)
    ensures r.Some? ==> forall j :: 0 <= j < r.value ==> !Holds(ss[j], peer, teid)
    decreases |ss| - k
  {
    if k == |ss| then None
    else if Holds(ss[k], peer, teid) then Some(k)
    else LookupFrom(ss, peer, teid, k + 1)
  }

  /** `RemoveSession`: drop the session object with identity `id`. */
  function Remove(ss: seq<Session>, id: nat): (r: seq<Session>)
    ensures forall s :: s in r <==> s in ss && s.id != id
    ensures |r| <= |ss|
    ensures DistinctIds(ss) ==> DistinctIds(r)
  {
    if |ss| == 0 then []
    else
      var rest := Remove(ss[1..], id);
      assert forall s :: s in ss <==> s == ss[0] || s in ss[1..];
      if ss[0].id == id then rest
      else
        assert DistinctIds(ss) ==> forall s :: s in rest ==> s.id != ss[0].id by {
          if DistinctIds(ss) {
            forall s | s in rest ensures s.id != ss[0].id {
              var j :| 0 <= j < |ss[1..]| && ss[1..][j] == s;
              assert ss[j + 1] == s;
            }
          }
        }
        [ss[0]] + rest
  }

  /** Removing a session that was appended last, under an identity no earlier
      session has, gives back exactly the earlier store. */
  lemma {:induction false} RemoveLastFresh(ss: seq<Session>, s: Session)
    requires forall i :: 0 <= i < |ss| ==> ss[i].id != s.id
    ensures Remove(ss + [s], s.id) == ss
  {
    if |ss| == 0 {
      assert (ss + [s])[1..] == [];
    } else {
      assert (ss + [s])[0] == ss[0];
      assert (ss + [s])[1..] == ss[1..] + [s];
      RemoveLastFresh(ss[1..], s);
      assert [ss[0]] + ss[1..] == ss;
    }
  }

  /** Removing an identity no stored session has changes nothing. */
  lemma {:induction false} RemoveAbsent(ss: seq<Session>, id: nat)
    requires forall i :: 0 <= i < |ss| ==> ss[i].id != id
    ensures Remove(ss, id) == ss
  {
    if |ss| > 0 {
      RemoveAbsent(ss[1..], id);
      assert [ss[0]] + ss[1..] == ss;
    }
  }
}

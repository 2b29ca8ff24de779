/**
 * RegistrationTransport.cs: signup sessions, their browser confirmation and the registrations in flight. Table
 * holds what the gate protects; each of its functions is one locked section. The World runs any number of
 * requests, and keeps the nonces it issued and consumed for the proofs.
 */
module RegistrationTransport {
  import opened Prelude

  const MAXIMUM_SESSIONS := 1000
  const LIFETIME := 600000

  datatype Claim = Claim(id: string, secret: string)

  datatype Details = Details(username: string, password: string, device: string)

  datatype Confirmation = Confirmation(invitation: Option<Claim>, nonce: nat)

  datatype Session = Session(expiresAt: int, authorized: bool, invitation: Option<Claim>, details: Option<Details>,
                             confirmation: Option<Confirmation>)

  type Sessions = map<nat, Session>

  datatype Table = Table(sessions: Sessions, pending: set<string>)

  // ---- The locked sections

  function Expired(sessions: Sessions, now: int): Sessions {
    map id | id in sessions && sessions[id].expiresAt > now :: sessions[id]
  }

  /** The session a request names: none, one that cannot be read, or an identity. */
  datatype Named = Unnamed | Unreadable | Existing(id: nat)

  /** The account fields of a request. device is None when the request has no such field. */
  datatype Account = Absent | Given(username: Option<string>, password: Option<string>, device: Option<Option<string>>)

  /** valid is the verdict of RegistrationUserId; stage says that the request names no other authentication stage. */
  datatype Body = Body(session: Named, account: Account, valid: bool, stage: bool)

  datatype Refusal = Invalid | RateLimit | Unsupported

  function Selected(sessions: Sessions, body: Body, now: int, made: nat): Result<(nat, Sessions), Refusal> {
    if body.session.Unreadable? || (body.session.Existing? && body.session.id !in sessions) then Failure(Invalid)
    else if body.session.Existing? then Success((body.session.id, sessions))
    else if |sessions| >= MAXIMUM_SESSIONS then Failure(RateLimit)
    else Success((made, sessions[made := Session(now + LIFETIME, false, None, None, None)]))
  }

  /** The account a request asks for; a device that it leaves out is the session's, or a new one. */
  function Requested(session: Session, account: Account, freshDevice: string): Option<Details>
    requires account.Given?
  {
    var device := if account.device.Some? then account.device.value
                  else if session.details.Some? then Some(session.details.value.device) else Some(freshDevice);
    if account.username.None? || account.password.None? || device.None? then None
    else Some(Details(account.username.value, account.password.value, device.value))
  }

  function Detailed(id: nat, sessions: Sessions, body: Body, freshDevice: string): Result<Sessions, Refusal>
    requires id in sessions
  {
    if body.account.Absent? then Success(sessions)
    else
      var details := Requested(sessions[id], body.account, freshDevice);
      if details.None? || !body.valid || (sessions[id].details.Some? && sessions[id].details != details) then Failure(Invalid)
      else Success(sessions[id := sessions[id].(details := details)])
  }

  /** The sessions after Prepare, and the session it found or made. */
  function Prepared(sessions: Sessions, body: Body, now: int, made: nat, freshDevice: string): (Sessions, Result<nat, Refusal>) {
    var live := Expired(sessions, now);
    var selected := Selected(live, body, now, made);
    if selected.Failure? then (live, Failure(selected.error))
    else
      var detailed := Detailed(selected.value.0, selected.value.1, body, freshDevice);
      if detailed.Failure? then (selected.value.1, Failure(detailed.error))
      else (detailed.value, if body.stage then Success(selected.value.0) else Failure(Unsupported))
  }

  predicate CanIssue(sessions: Sessions, id: nat, now: int) {
    id in sessions && sessions[id].expiresAt > now
  }

  function Issued(sessions: Sessions, id: nat, invitation: Option<Claim>, nonce: nat): Sessions
    requires id in sessions
  {
    sessions[id := sessions[id].(confirmation := Some(Confirmation(invitation, nonce)))]
  }

  predicate CanConfirm(sessions: Sessions, id: nat, invitation: Option<Claim>, nonce: Option<nat>, now: int) {
    CanIssue(sessions, id, now) && nonce.Some? && sessions[id].confirmation == Some(Confirmation(invitation, nonce.value))
  }

  function Confirmed(sessions: Sessions, id: nat, invitation: Option<Claim>): Sessions
    requires id in sessions
  {
    sessions[id := sessions[id].(authorized := true, invitation := invitation, confirmation := None)]
  }

  class RegistrationTransport {
    var sessions: Sessions
    var pending: set<string>

    constructor ()
      ensures View() == Table(map[], {})
    {
      sessions, pending := map[], {};
    }

    ghost function View(): Table
      reads this
    {
      Table(sessions, pending)
    }

    method Expire(now: int)
      modifies `sessions
      ensures sessions == Expired(old(sessions), now)
    {
      var remaining := sessions.Keys;
      ghost var before := sessions;
      while remaining != {}
        invariant remaining <= sessions.Keys <= before.Keys
        invariant forall id :: id in sessions ==> sessions[id] == before[id]
        invariant forall id :: id in before && id !in remaining ==> (id in sessions <==> before[id].expiresAt > now)
        decreases |remaining|
      {
        var id :| id in remaining;
        remaining := remaining - {id};
        if sessions[id].expiresAt <= now {
          sessions := sessions - {id};
        }
      }
    }

    method Prepare(body: Body, now: int, made: nat, freshDevice: string) returns (r: Result<nat, Refusal>)
      modifies `sessions
      ensures (sessions, r) == Prepared(old(sessions), body, now, made, freshDevice)
    {
      Expire(now);
      if body.session.Unreadable? || (body.session.Existing? && body.session.id !in sessions) {
        return Failure(Invalid);
      }
      var id := made;
      if body.session.Existing? {
        id := body.session.id;
      } else {
        if |sessions| >= MAXIMUM_SESSIONS {
          return Failure(RateLimit);
        }
        sessions := sessions[id := Session(now + LIFETIME, false, None, None, None)];
      }
      if body.account.Given? {
        var session := sessions[id];
        var details := Requested(session, body.account, freshDevice);
        if details.None? || !body.valid {
          return Failure(Invalid);
        }
        if session.details.Some? && session.details != details {
          return Failure(Invalid);
        }
        sessions := sessions[id := session.(details := details)];
      }
      if !body.stage {
        return Failure(Unsupported);
      }
      return Success(id);
    }

    method Admit(username: string) returns (admitted: bool)
      modifies `pending
      ensures admitted == (username !in old(pending)) && pending == old(pending) + {username}
    {
      admitted := username !in pending;
      pending := pending + {username};
    }

    method Remove(id: nat)
      modifies `sessions
      ensures sessions == old(sessions) - {id}
    {
      sessions := sessions - {id};
    }

    method Release(username: string)
      modifies `pending
      ensures pending == old(pending) - {username}
    {
      pending := pending - {username};
    }

    method Issue(id: nat, invitation: Option<Claim>, nonce: nat, now: int) returns (updated: bool)
      modifies `sessions
      ensures updated == CanIssue(old(sessions), id, now)
      ensures sessions == if updated then Issued(old(sessions), id, invitation, nonce) else old(sessions)
    {
      updated := id in sessions && sessions[id].expiresAt > now;
      if updated {
        sessions := sessions[id := sessions[id].(confirmation := Some(Confirmation(invitation, nonce)))];
      }
    }

    method Confirm(id: nat, invitation: Option<Claim>, nonce: Option<nat>, now: int) returns (authorized: bool)
      modifies `sessions
      ensures authorized == CanConfirm(old(sessions), id, invitation, nonce, now)
      ensures sessions == if authorized then Confirmed(old(sessions), id, invitation) else old(sessions)
    {
      authorized := false;
      if nonce.Some? && id in sessions && sessions[id].expiresAt > now {
        var confirmation := sessions[id].confirmation;
        if confirmation.Some? && confirmation.value.nonce == nonce.value && confirmation.value.invitation == invitation {
          sessions := sessions[id := sessions[id].(authorized := true, invitation := invitation, confirmation := None)];
          authorized := true;
        }
      }
    }
  }

  // ---- Requests running together

  /** A registration between its locked sections: the session as Prepare saw it. */
  datatype Flow = Seen(id: nat, session: Session) | Registering(id: nat, session: Session)

  datatype Issue = Issue(session: nat, invitation: Option<Claim>)

  datatype World = World(
    table: Table,
    flows: map<nat, Flow>,
    ids: nat,                     // session identities made so far
    nonces: map<nat, Issue>,      // every nonce with the session and invitation it was issued for
    latest: map<nat, nat>,        // the last nonce issued for each session
    consumed: multiset<nat>)

  const BEGIN := World(Table(map[], {}), map[], 0, map[], map[], multiset{})

  datatype Event =
    | Prepare(flow: nat, body: Body, now: int, freshDevice: string)
    | Admit(flow: nat)
    | Succeed(flow: nat)                       // the account was registered
    | End(flow: nat)
    | Look(now: int)                           // the first section of a fallback request
    | GetPage(id: nat, invitation: Option<Claim>, nonce: nat, now: int)
    | PostPage(id: nat, invitation: Option<Claim>, shown: Option<nat>, now: int)

  function WithSessions(w: World, sessions: Sessions): World {
    w.(table := w.table.(sessions := sessions))
  }

  function Next(w: World, e: Event): World {
    match e
    case Prepare(f, body, now, freshDevice) =>
      if f in w.flows then w
      else
        var prepared := Prepared(w.table.sessions, body, now, w.ids, freshDevice);
        var v := WithSessions(w, prepared.0).(ids := w.ids + 1);
        if prepared.1.Failure? || prepared.1.value !in prepared.0 then v
        else v.(flows := w.flows[f := Seen(prepared.1.value, prepared.0[prepared.1.value])])
    case Admit(f) =>
      if f !in w.flows || !w.flows[f].Seen? then w
      else
        var session := w.flows[f].session;
        if !session.authorized || session.details.None? || session.details.value.username in w.table.pending
        then w.(flows := w.flows - {f})
        else w.(table := w.table.(pending := w.table.pending + {session.details.value.username}),
                flows := w.flows[f := Registering(w.flows[f].id, session)])
    case Succeed(f) =>
      if f !in w.flows || !w.flows[f].Registering? then w else WithSessions(w, w.table.sessions - {w.flows[f].id})
    case End(f) =>
      if f !in w.flows || !w.flows[f].Registering? || w.flows[f].session.details.None? then w
      else w.(table := w.table.(pending := w.table.pending - {w.flows[f].session.details.value.username}), flows := w.flows - {f})
    case Look(now) => WithSessions(w, Expired(w.table.sessions, now))
    case GetPage(id, invitation, nonce, now) =>
      if nonce in w.nonces || !CanIssue(w.table.sessions, id, now) then w
      else
        WithSessions(w, Issued(w.table.sessions, id, invitation, nonce)).(nonces := w.nonces[nonce := Issue(id, invitation)],
                                                                          latest := w.latest[id := nonce])
    case PostPage(id, invitation, nonce, now) =>
      if !CanConfirm(w.table.sessions, id, invitation, nonce, now) then w
      else WithSessions(w, Confirmed(w.table.sessions, id, invitation)).(consumed := w.consumed + multiset{nonce.value})
  }

  function Run(events: seq<Event>): World {
    if events == [] then BEGIN else Next(Run(events[..|events| - 1]), events[|events| - 1])
  }

  // ---- What every step keeps

  /** A pending confirmation is the last nonce issued for its session, not consumed yet. */
  predicate ConfirmationFits(id: nat, s: Session, nonces: map<nat, Issue>, latest: map<nat, nat>, consumed: multiset<nat>) {
    s.confirmation.Some? ==>
      var c := s.confirmation.value;
      c.nonce in nonces && nonces[c.nonce] == Issue(id, c.invitation) && id in latest && latest[id] == c.nonce && consumed[c.nonce] == 0
  }

  /** An authorized session consumed a nonce issued for it with the invitation it is authorized for. */
  ghost predicate AuthorizationFits(id: nat, s: Session, nonces: map<nat, Issue>, consumed: multiset<nat>) {
    s.authorized ==> exists nonce :: nonce in nonces && consumed[nonce] == 1 && nonces[nonce] == Issue(id, s.invitation)
  }

  ghost predicate Nonces(sessions: Sessions, nonces: map<nat, Issue>, latest: map<nat, nat>, consumed: multiset<nat>) {
    && (forall n :: consumed[n] <= 1 && (consumed[n] > 0 ==> n in nonces))
    && (forall id :: id in sessions ==> ConfirmationFits(id, sessions[id], nonces, latest, consumed))
    && (forall id :: id in sessions ==> AuthorizationFits(id, sessions[id], nonces, consumed))
  }

  predicate Bounded(sessions: Sessions, ids: nat) {
    |sessions| <= MAXIMUM_SESSIONS && forall id :: id in sessions ==> id < ids
  }

  predicate SameUsername(a: Flow, b: Flow) {
    && a.Registering? && b.Registering? && a.session.details.Some? && b.session.details.Some?
    && a.session.details.value.username == b.session.details.value.username
  }

  /** Each username being registered belongs to one registration. */
  ghost predicate Exclusive(flows: map<nat, Flow>, pending: set<string>) {
    && (forall f :: f in flows && flows[f].Registering? ==>
          flows[f].session.authorized && flows[f].session.details.Some? && flows[f].session.details.value.username in pending)
    && (forall f, g :: f in flows && g in flows && SameUsername(flows[f], flows[g]) ==> f == g)
    && (forall name :: name in pending ==>
          exists f :: f in flows && flows[f].Registering? && flows[f].session.details.Some? && flows[f].session.details.value.username == name)
  }

  ghost predicate Inv(w: World) {
    && Bounded(w.table.sessions, w.ids) && Exclusive(w.flows, w.table.pending)
    && Nonces(w.table.sessions, w.nonces, w.latest, w.consumed)
  }

  /** What one section may do to the sessions besides confirmation: drop some, add a blank one, fill in missing details. */
  predicate Keeps(before: Sessions, after: Sessions, ids: nat) {
    forall id :: id in after ==>
      if id in before then
        && after[id].expiresAt == before[id].expiresAt && after[id].authorized == before[id].authorized
        && after[id].invitation == before[id].invitation && after[id].confirmation == before[id].confirmation
        && (before[id].details.Some? ==> after[id].details == before[id].details)
      else id == ids && !after[id].authorized && after[id].confirmation.None?
  }

  lemma ExpiredFewer(sessions: Sessions, now: int)
    ensures Expired(sessions, now).Keys <= sessions.Keys && |Expired(sessions, now)| <= |sessions|
  {
    Fewer(Expired(sessions, now).Keys, sessions.Keys);
  }

  lemma {:induction false} Fewer(a: set<nat>, b: set<nat>)
    requires a <= b
    ensures |a| <= |b|
  {
    assert a + (b - a) == b;
  }

  lemma {:induction false} PreparedKeeps(sessions: Sessions, body: Body, now: int, made: nat, freshDevice: string)
    requires Bounded(sessions, made)
    ensures var after := Prepared(sessions, body, now, made, freshDevice).0; Keeps(sessions, after, made) && Bounded(after, made + 1)
  {
    ExpiredFewer(sessions, now);
    var live := Expired(sessions, now);
    var selected := Selected(live, body, now, made);
    if selected.Success? {
      assert Keeps(sessions, selected.value.1, made) && Bounded(selected.value.1, made + 1);
      var id := selected.value.0;
      hide Selected, Expired, Requested;
      if body.account.Given? {
        var details := Requested(selected.value.1[id], body.account, freshDevice);
        assert selected.value.1[id := selected.value.1[id].(details := details)].Keys == selected.value.1.Keys;
      }
    } else {
      hide Selected;
    }
  }

  lemma KeptNonces(before: Sessions, after: Sessions, ids: nat, nonces: map<nat, Issue>, latest: map<nat, nat>, consumed: multiset<nat>)
    requires Nonces(before, nonces, latest, consumed) && Keeps(before, after, ids)
    ensures Nonces(after, nonces, latest, consumed)
  {
    forall id | id in after ensures AuthorizationFits(id, after[id], nonces, consumed) && ConfirmationFits(id, after[id], nonces, latest, consumed) {
      if id in before {
        assert AuthorizationFits(id, before[id], nonces, consumed) && ConfirmationFits(id, before[id], nonces, latest, consumed);
      }
    }
  }

  lemma {:induction false} SessionsKept(w: World, e: Event)
    requires Inv(w) && (e.Prepare? || e.Succeed? || e.Look?)
    ensures Keeps(w.table.sessions, Next(w, e).table.sessions, w.ids) && Bounded(Next(w, e).table.sessions, Next(w, e).ids)
  {
    hide Exclusive, Nonces;
    if e.Prepare? {
      hide Keeps, Bounded, Prepared;
      PreparedKeeps(w.table.sessions, e.body, e.now, w.ids, e.freshDevice);
      if e.flow in w.flows { Unchanged(w.table.sessions, w.ids); }
    } else if e.Look? {
      ExpiredFewer(w.table.sessions, e.now);
    } else if e.flow in w.flows && w.flows[e.flow].Registering? {
      Fewer((w.table.sessions - {w.flows[e.flow].id}).Keys, w.table.sessions.Keys);
    }
  }

  lemma Unchanged(sessions: Sessions, ids: nat)
    ensures Keeps(sessions, sessions, ids)
  {
  }

  lemma IssueKeeps(w: World, id: nat, invitation: Option<Claim>, nonce: nat)
    requires Inv(w) && id in w.table.sessions && nonce !in w.nonces
    ensures Nonces(Issued(w.table.sessions, id, invitation, nonce), w.nonces[nonce := Issue(id, invitation)], w.latest[id := nonce], w.consumed)
    ensures Bounded(Issued(w.table.sessions, id, invitation, nonce), w.ids)
  {
    hide Exclusive;
    var sessions := Issued(w.table.sessions, id, invitation, nonce);
    var nonces := w.nonces[nonce := Issue(id, invitation)];
    assert sessions.Keys == w.table.sessions.Keys;
    forall d | d in sessions
      ensures AuthorizationFits(d, sessions[d], nonces, w.consumed) && ConfirmationFits(d, sessions[d], nonces, w.latest[id := nonce], w.consumed)
    {
      assert AuthorizationFits(d, w.table.sessions[d], w.nonces, w.consumed);
      assert ConfirmationFits(d, w.table.sessions[d], w.nonces, w.latest, w.consumed);
    }
  }

  lemma ConfirmKeeps(w: World, id: nat, invitation: Option<Claim>, nonce: nat)
    requires Inv(w) && id in w.table.sessions && w.table.sessions[id].confirmation == Some(Confirmation(invitation, nonce))
    ensures Nonces(Confirmed(w.table.sessions, id, invitation), w.nonces, w.latest, w.consumed + multiset{nonce})
    ensures Bounded(Confirmed(w.table.sessions, id, invitation), w.ids) && w.consumed[nonce] == 0
  {
    hide Exclusive;
    var sessions, consumed := Confirmed(w.table.sessions, id, invitation), w.consumed + multiset{nonce};
    assert sessions.Keys == w.table.sessions.Keys;
    assert ConfirmationFits(id, w.table.sessions[id], w.nonces, w.latest, w.consumed);
    assert consumed[nonce] == 1;
    forall d | d in sessions
      ensures AuthorizationFits(d, sessions[d], w.nonces, consumed) && ConfirmationFits(d, sessions[d], w.nonces, w.latest, consumed)
    {
      assert ConfirmationFits(d, w.table.sessions[d], w.nonces, w.latest, w.consumed);
      assert AuthorizationFits(d, w.table.sessions[d], w.nonces, w.consumed);
      if d == id {
        assert nonce in w.nonces && w.nonces[nonce] == Issue(id, invitation);
      } else if sessions[d].authorized {
        var n :| n in w.nonces && w.consumed[n] == 1 && w.nonces[n] == Issue(d, sessions[d].invitation);
        assert consumed[n] == 1;
      }
    }
  }

  /** Flows that are not registering come and go. */
  lemma SeenExclusive(flows: map<nat, Flow>, after: map<nat, Flow>, pending: set<string>)
    requires Exclusive(flows, pending)
    requires forall f :: f in flows && flows[f].Registering? ==> f in after && after[f] == flows[f]
    requires forall f :: f in after && after[f].Registering? ==> f in flows && flows[f] == after[f]
    ensures Exclusive(after, pending)
  {
    forall name | name in pending
      ensures exists g :: g in after && after[g].Registering? && after[g].session.details.Some? && after[g].session.details.value.username == name
    {
      var g :| g in flows && flows[g].Registering? && flows[g].session.details.Some? && flows[g].session.details.value.username == name;
      assert g in after && after[g] == flows[g];
    }
  }

  lemma AdmitExclusive(flows: map<nat, Flow>, pending: set<string>, f: nat)
    requires Exclusive(flows, pending) && f in flows && flows[f].Seen? && flows[f].session.authorized && flows[f].session.details.Some?
    requires flows[f].session.details.value.username !in pending
    ensures Exclusive(flows[f := Registering(flows[f].id, flows[f].session)], pending + {flows[f].session.details.value.username})
  {
    var after := flows[f := Registering(flows[f].id, flows[f].session)];
    forall name | name in pending + {flows[f].session.details.value.username}
      ensures exists g :: g in after && after[g].Registering? && after[g].session.details.Some? && after[g].session.details.value.username == name
    {
      if name in pending {
        var g :| g in flows && flows[g].Registering? && flows[g].session.details.Some? && flows[g].session.details.value.username == name;
        assert g in after && after[g] == flows[g];
      } else {
        assert f in after;
      }
    }
  }

  lemma EndExclusive(flows: map<nat, Flow>, pending: set<string>, f: nat)
    requires Exclusive(flows, pending) && f in flows && flows[f].Registering? && flows[f].session.details.Some?
    ensures Exclusive(flows - {f}, pending - {flows[f].session.details.value.username})
  {
    var after := flows - {f};
    forall name | name in pending - {flows[f].session.details.value.username}
      ensures exists g :: g in after && after[g].Registering? && after[g].session.details.Some? && after[g].session.details.value.username == name
    {
      var g :| g in flows && flows[g].Registering? && flows[g].session.details.Some? && flows[g].session.details.value.username == name;
      assert g in after && after[g] == flows[g];
    }
    assert forall g :: g in flows && g != f ==> !SameUsername(flows[f], flows[g]);
  }

  lemma FlowsKept(w: World, e: Event)
    requires Exclusive(w.flows, w.table.pending) && (e.Admit? || e.End? || e.Prepare?)
    ensures Exclusive(Next(w, e).flows, Next(w, e).table.pending)
  {
    hide Prepared, Exclusive;
    var f := e.flow;
    if e.Prepare? {
      SeenExclusive(w.flows, Next(w, e).flows, w.table.pending);
    } else if f in w.flows && e.End? {
      if w.flows[f].Registering? && w.flows[f].session.details.Some? { EndExclusive(w.flows, w.table.pending, f); }
    } else if f in w.flows && w.flows[f].Seen? {
      var session := w.flows[f].session;
      if !session.authorized || session.details.None? || session.details.value.username in w.table.pending {
        SeenExclusive(w.flows, Next(w, e).flows, w.table.pending);
      } else {
        AdmitExclusive(w.flows, w.table.pending, f);
      }
    }
  }

  lemma StepKeeps(w: World, e: Event)
    requires Inv(w)
    ensures Inv(Next(w, e))
  {
    hide Exclusive, Nonces, Bounded, Keeps, Prepared, Expired, Issued, Confirmed;
    match e
    case GetPage(id, invitation, nonce, now) =>
      if nonce !in w.nonces && CanIssue(w.table.sessions, id, now) { IssueKeeps(w, id, invitation, nonce); }
    case PostPage(id, invitation, nonce, now) =>
      if CanConfirm(w.table.sessions, id, invitation, nonce, now) { ConfirmKeeps(w, id, invitation, nonce.value); }
    case Admit(f) => FlowsKept(w, e);
    case End(f) => FlowsKept(w, e);
    case _ =>
      SessionsKept(w, e);
      KeptNonces(w.table.sessions, Next(w, e).table.sessions, w.ids, w.nonces, w.latest, w.consumed);
      if e.Prepare? { FlowsKept(w, e); }
  }

  lemma {:induction false} Always(events: seq<Event>)
    ensures Inv(Run(events))
  {
    if events != [] {
      Always(events[..|events| - 1]);
      hide Inv, Next;
      StepKeeps(Run(events[..|events| - 1]), events[|events| - 1]);
    }
  }

  // ---- What it is for

  /** At most 1000 sessions, and no two registrations of one username in flight; each is of an authorized session. */
  lemma {:induction false} BoundsHold(events: seq<Event>, f: nat, g: nat)
    requires f in Run(events).flows && g in Run(events).flows && Run(events).flows[f].Registering? && Run(events).flows[g].Registering?
    ensures |Run(events).table.sessions| <= MAXIMUM_SESSIONS
    ensures Run(events).flows[f].session.authorized && Run(events).flows[f].session.details.Some? && Run(events).flows[g].session.details.Some?
    ensures Run(events).flows[f].session.details.value.username == Run(events).flows[g].session.details.value.username ==> f == g
  {
    Always(events);
    hide Run, Nonces;
  }

  lemma {:induction false} SessionsBounded(events: seq<Event>)
    ensures |Run(events).table.sessions| <= MAXIMUM_SESSIONS
  {
    Always(events);
    hide Run, Nonces, Exclusive;
  }

  /**
   * A session becomes authorized only by the latest nonce issued for it, shown with the invitation seen when the
   * nonce was issued, before it expires, and a nonce is consumed once at most.
   */
  lemma {:induction false} AuthorizedByNonce(events: seq<Event>, e: Event, id: nat)
    requires id in Next(Run(events), e).table.sessions && Next(Run(events), e).table.sessions[id].authorized
    requires !(id in Run(events).table.sessions && Run(events).table.sessions[id].authorized)
    ensures var w := Run(events);
            && e.PostPage? && e.id == id && e.shown.Some? && id in w.latest && w.latest[id] == e.shown.value
            && e.shown.value in w.nonces && w.nonces[e.shown.value] == Issue(id, e.invitation) && w.consumed[e.shown.value] == 0
            && id in w.table.sessions && w.table.sessions[id].expiresAt > e.now
            && Next(w, e).table.sessions[id].invitation == e.invitation
  {
    Always(events);
    var w := Run(events);
    hide Run, Exclusive;
    if e.PostPage? {
      if CanConfirm(w.table.sessions, e.id, e.invitation, e.shown, e.now) {
        assert ConfirmationFits(e.id, w.table.sessions[e.id], w.nonces, w.latest, w.consumed);
      }
      hide Nonces;
    } else if e.Prepare? || e.Succeed? || e.Look? {
      SessionsKept(w, e);
      hide Next, Nonces;
      assert false;
    } else {
      hide Nonces;
      assert false;
    }
  }

  lemma {:induction false} NonceOnce(events: seq<Event>, nonce: nat)
    ensures Run(events).consumed[nonce] <= 1
    ensures forall id :: id in Run(events).table.sessions ==>
              AuthorizationFits(id, Run(events).table.sessions[id], Run(events).nonces, Run(events).consumed)
  {
    Always(events);
    hide Run, Exclusive, AuthorizationFits, ConfirmationFits;
  }

  /** One step changes neither the expiry of a session nor details once given, and never brings a session back. */
  predicate Stable(before: Sessions, after: Sessions, ids: nat) {
    forall id :: id in after && id < ids ==>
      && id in before && after[id].expiresAt == before[id].expiresAt
      && (before[id].details.Some? ==> after[id].details == before[id].details)
      && (before[id].authorized ==> after[id].authorized)
  }

  lemma {:induction false} StepStable(w: World, e: Event)
    requires Inv(w)
    ensures Stable(w.table.sessions, Next(w, e).table.sessions, w.ids) && Next(w, e).ids >= w.ids
  {
    hide Exclusive, Nonces;
    if e.Prepare? || e.Succeed? || e.Look? {
      SessionsKept(w, e);
      KeepsStable(w.table.sessions, Next(w, e).table.sessions, w.ids);
      hide Stable, Keeps, Prepared, Expired;
    } else {
      hide Prepared, Expired;
    }
  }

  lemma KeepsStable(before: Sessions, after: Sessions, ids: nat)
    requires Keeps(before, after, ids)
    ensures Stable(before, after, ids)
  {
  }

  lemma StableTogether(a: Sessions, b: Sessions, c: Sessions, ids: nat, later: nat)
    requires Stable(a, b, ids) && Stable(b, c, later) && later >= ids
    ensures Stable(a, c, ids)
  {
  }

  /** Over a whole run: expiry is never extended, details never change once set, and a session that is gone stays gone. */
  lemma {:induction false} SessionsStable(events: seq<Event>, more: seq<Event>)
    ensures Stable(Run(events).table.sessions, Run(events + more).table.sessions, Run(events).ids) && Run(events + more).ids >= Run(events).ids
  {
    hide Next, Inv, Stable;
    if more == [] {
      assert events + more == events;
      hide Run;
      Always(events);
      Fits(Run(events));
      Itself(Run(events).table.sessions, Run(events).ids);
    } else {
      var last := more[|more| - 1];
      SessionsStable(events, more[..|more| - 1]);
      RunNext(events, more);
      hide Run;
      Always(events + more[..|more| - 1]);
      StepStable(Run(events + more[..|more| - 1]), last);
      StableTogether(Run(events).table.sessions, Run(events + more[..|more| - 1]).table.sessions, Run(events + more).table.sessions,
                     Run(events).ids, Run(events + more[..|more| - 1]).ids);
    }
  }

  lemma Fits(w: World)
    requires Inv(w)
    ensures Bounded(w.table.sessions, w.ids)
  {
  }

  lemma RunNext(events: seq<Event>, more: seq<Event>)
    requires more != []
    ensures Run(events + more) == Next(Run(events + more[..|more| - 1]), more[|more| - 1])
  {
    assert (events + more)[..|events + more| - 1] == events + more[..|more| - 1];
    hide Next;
  }

  lemma Itself(sessions: Sessions, ids: nat)
    requires Bounded(sessions, ids)
    ensures Stable(sessions, sessions, ids)
  {
  }

  // ---- What one request does, exactly

  predicate Live(sessions: Sessions, id: nat, now: int) {
    id in sessions && sessions[id].expiresAt > now
  }

  function LiveOnes(sessions: Sessions, now: int): set<nat> {
    set id | id in sessions && sessions[id].expiresAt > now
  }

  /** The request names a live session, or none while fewer than 1000 are live. */
  predicate MayBegin(sessions: Sessions, body: Body, now: int) {
    match body.session
    case Unnamed => |LiveOnes(sessions, now)| < 1000
    case Unreadable => false
    case Existing(id) => Live(sessions, id, now)
  }

  /** The session as the request finds it: the one it names, or a blank one for ten minutes. */
  function Found(sessions: Sessions, body: Body, now: int): Session {
    if body.session.Existing? && body.session.id in sessions then sessions[body.session.id] else Session(now + 600000, false, None, None, None)
  }

  /** Username and password come from the request; so does the device, unless the request has no such field. */
  predicate Asks(account: Account, known: Option<Details>, freshDevice: string, details: Details) {
    && account.Given? && account.username == Some(details.username) && account.password == Some(details.password)
    && match account.device
       case Some(given) => given == Some(details.device)
       case None => details.device == match known case Some(d) => d.device case None => freshDevice
  }

  /** The account fields are absent, or complete and valid and no change of what the session knows. */
  ghost predicate MayAsk(s: Session, body: Body, freshDevice: string) {
    body.account.Given? ==> body.valid && exists details :: Asks(body.account, s.details, freshDevice, details)
                                                            && (s.details.Some? ==> s.details.value == details)
  }

  lemma AsksOne(account: Account, s: Session, freshDevice: string)
    requires account.Given?
    ensures var r := Requested(s, account, freshDevice);
            forall details :: Asks(account, s.details, freshDevice, details) <==> r == Some(details)
  {
  }

  lemma SelectedExactly(sessions: Sessions, body: Body, now: int, made: nat)
    ensures var selected := Selected(Expired(sessions, now), body, now, made);
            && (selected.Success? <==> MayBegin(sessions, body, now))
            && (selected.Success? ==>
                  && selected.value.0 == (if body.session.Existing? then body.session.id else made)
                  && selected.value.1 == Expired(sessions, now)[selected.value.0 := Found(sessions, body, now)])
  {
    assert Expired(sessions, now).Keys == LiveOnes(sessions, now);
  }

  lemma DetailedExactly(id: nat, sessions: Sessions, body: Body, freshDevice: string)
    requires id in sessions
    ensures var s, detailed := sessions[id], Detailed(id, sessions, body, freshDevice);
            && (detailed.Success? <==> MayAsk(s, body, freshDevice))
            && (detailed.Success? && body.account.Absent? ==> detailed.value == sessions)
            && (detailed.Success? && body.account.Given? ==>
                  exists details :: Asks(body.account, s.details, freshDevice, details) && detailed.value == sessions[id := s.(details := Some(details))])
  {
    if body.account.Given? {
      AsksOne(body.account, sessions[id], freshDevice);
      hide Asks, Requested;
    }
  }

  /**
   * A request goes on with a session exactly when the session may begin, the account fields fit and no other stage
   * is asked for. It then holds the session with the fields it asked for; every other live session is as it was.
   */
  lemma {:induction false} PreparesExactly(events: seq<Event>, f: nat, body: Body, now: int, freshDevice: string)
    requires f !in Run(events).flows
    ensures var w := Run(events); var v := Run(events + [Event.Prepare(f, body, now, freshDevice)]);
            var s := Found(w.table.sessions, body, now);
            && (f in v.flows <==> MayBegin(w.table.sessions, body, now) && MayAsk(s, body, freshDevice) && body.stage)
            && (f in v.flows ==>
                  var id := if body.session.Existing? then body.session.id else w.ids;
                  && id in v.table.sessions && v.flows[f] == Seen(id, v.table.sessions[id])
                  && v.table.sessions[id].(details := None) == s.(details := None)
                  && (if body.account.Absent? then v.table.sessions[id].details == s.details
                      else v.table.sessions[id].details.Some? && Asks(body.account, s.details, freshDevice, v.table.sessions[id].details.value)))
            && (forall id :: id != w.ids && body.session != Existing(id) ==>
                  (id in v.table.sessions <==> Live(w.table.sessions, id, now)) && (id in v.table.sessions ==> v.table.sessions[id] == w.table.sessions[id]))
  {
    var e := Event.Prepare(f, body, now, freshDevice);
    RunNext(events, [e]);
    assert events + [e][..0] == events;
    var w := Run(events);
    assert Run(events + [e]) == Next(w, e);
    hide Run, Next, Prepared;
    PreparedExactly(w.table.sessions, body, now, w.ids, freshDevice);
    PrepareStep(w, f, body, now, freshDevice);
    hide MayBegin, MayAsk, Asks, Found;
  }

  lemma PrepareStep(w: World, f: nat, body: Body, now: int, freshDevice: string)
    requires f !in w.flows
    ensures var (sessions, r) := Prepared(w.table.sessions, body, now, w.ids, freshDevice);
            var v := Next(w, Event.Prepare(f, body, now, freshDevice));
            && v.table.sessions == sessions && (f in v.flows <==> r.Success? && r.value in sessions)
            && (f in v.flows ==> v.flows[f] == Seen(r.value, sessions[r.value]))
  {
    hide Prepared;
  }

  lemma PreparedExactly(sessions: Sessions, body: Body, now: int, made: nat, freshDevice: string)
    ensures var (after, r) := Prepared(sessions, body, now, made, freshDevice);
            var s, id := Found(sessions, body, now), if body.session.Existing? then body.session.id else made;
            && (r.Success? <==> MayBegin(sessions, body, now) && MayAsk(s, body, freshDevice) && body.stage)
            && (r.Success? ==>
                  && r.value == id && id in after && after[id].(details := None) == s.(details := None)
                  && (if body.account.Absent? then after[id].details == s.details
                      else after[id].details.Some? && Asks(body.account, s.details, freshDevice, after[id].details.value)))
            && (forall other :: other != made && body.session != Existing(other) ==>
                  (other in after <==> Live(sessions, other, now)) && (other in after ==> after[other] == sessions[other]))
  {
    var live := Expired(sessions, now);
    assert forall other :: (other in live <==> Live(sessions, other, now)) && (other in live ==> live[other] == sessions[other]);
    SelectedExactly(sessions, body, now, made);
    var selected := Selected(live, body, now, made);
    hide Expired, Selected, MayBegin, MayAsk, Asks, Found, Detailed;
    if selected.Success? {
      DetailedExactly(selected.value.0, selected.value.1, body, freshDevice);
    }
  }

  /** A page shown for a live session and posted in time with the invitation it was shown with authorizes the session. */
  lemma {:induction false} PageAuthorizes(events: seq<Event>, id: nat, invitation: Option<Claim>, nonce: nat, shown: int, posted: int)
    requires var w := Run(events); nonce !in w.nonces && Live(w.table.sessions, id, shown) && Live(w.table.sessions, id, posted)
    ensures var w := Run(events); var v := Run(events + [GetPage(id, invitation, nonce, shown), PostPage(id, invitation, Some(nonce), posted)]);
            && id in v.table.sessions
            && v.table.sessions == w.table.sessions[id := w.table.sessions[id].(authorized := true, invitation := invitation, confirmation := None)]
  {
    var get, post := GetPage(id, invitation, nonce, shown), PostPage(id, invitation, Some(nonce), posted);
    RunNext(events, [get, post]);
    RunNext(events, [get]);
    assert events + [get, post][..1] == events + [get] && events + [get][..0] == events;
    hide Run;
    var w := Run(events);
    assert Run(events + [get]) == Next(w, get) && Run(events + [get, post]) == Next(Next(w, get), post);
    PageSteps(w, id, invitation, nonce, shown, posted);
    hide Next;
  }

  lemma PageSteps(w: World, id: nat, invitation: Option<Claim>, nonce: nat, shown: int, posted: int)
    requires nonce !in w.nonces && Live(w.table.sessions, id, shown) && Live(w.table.sessions, id, posted)
    ensures var v := Next(Next(w, GetPage(id, invitation, nonce, shown)), PostPage(id, invitation, Some(nonce), posted));
            v.table.sessions == w.table.sessions[id := w.table.sessions[id].(authorized := true, invitation := invitation, confirmation := None)]
  {
    var get := Next(w, GetPage(id, invitation, nonce, shown));
    var s := w.table.sessions[id].(confirmation := Some(Confirmation(invitation, nonce)));
    assert get.table.sessions == w.table.sessions[id := s];
    hide Prepared, Expired;
  }

  /**
   * A request with a session is admitted to register exactly when it saw the session authorized, with its details,
   * and no other registration of that username is in flight.
   */
  lemma {:induction false} AdmitsExactly(events: seq<Event>, f: nat)
    requires f in Run(events).flows && Run(events).flows[f].Seen?
    ensures var w, v := Run(events), Run(events + [Event.Admit(f)]); var s := w.flows[f].session;
            if s.authorized && s.details.Some?
               && !exists g :: g in w.flows && w.flows[g].Registering? && w.flows[g].session.details.Some?
                               && w.flows[g].session.details.value.username == s.details.value.username
            then v.flows == w.flows[f := Registering(w.flows[f].id, s)]
            else v.flows == w.flows - {f}
  {
    Always(events);
    RunNext(events, [Event.Admit(f)]);
    assert events + [Event.Admit(f)][..0] == events;
    hide Run, Nonces, Bounded;
  }
}

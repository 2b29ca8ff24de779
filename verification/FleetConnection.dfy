/**
 * FleetConnection.cs: a controller that polls for revision-numbered snapshots of its fleet, while local changes
 * of the delivery flag, receipts, disconnections and the lease loop interleave with the polls. Core holds the
 * fields under the gate; each of its functions is one locked section with the Refresh that follows it. Flags
 * says which delivery flag the server gave each revision.
 */
module FleetConnection {
  import opened Prelude

  const MAXIMUM_LISTENERS := 100

  type Agent = nat
  type Flags = int -> bool

  datatype Message = Message(id: nat, agents: seq<Agent>)

  datatype Snapshot = Snapshot(revision: int, enabled: bool, agents: set<Agent>, messages: seq<Message>)

  datatype State = State(connected: bool, enabled: bool, revision: Option<int>)

  /** What ListenerControl.Update was last told; input is the message to deliver. */
  datatype Listener = Listener(connected: bool, active: bool, input: Option<nat>)

  datatype Core = Core(
    state: State,
    snapshot: Option<Snapshot>,
    listeners: map<Agent, Listener>,
    completed: set<(nat, Agent)>,
    cancelled: bool)               // requests.IsCancellationRequested

  const NEW := Core(State(false, false, None), None, map[], {}, false)

  /** The first message for the agent that it has not completed. */
  function InputFor(messages: seq<Message>, completed: set<(nat, Agent)>, a: Agent): Option<nat> {
    if messages == [] then None
    else if a in messages[0].agents && (messages[0].id, a) !in completed then Some(messages[0].id)
    else InputFor(messages[1..], completed, a)
  }

  function Shown(c: Core, a: Agent): Listener {
    var connected := c.state.connected && c.snapshot.Some? && a in c.snapshot.value.agents;
    Listener(connected, connected && c.state.enabled && c.state.revision == Some(c.snapshot.value.revision),
             if c.snapshot.None? then None else InputFor(c.snapshot.value.messages, c.completed, a))
  }

  function Refreshed(c: Core): Core {
    c.(listeners := map a | a in c.listeners :: Shown(c, a))
  }

  lemma AllShown(c: Core, updated: map<Agent, Listener>)
    requires updated.Keys == c.listeners.Keys && forall a :: a in updated ==> updated[a] == Shown(c, a)
    ensures Refreshed(c) == c.(listeners := updated)
  {
    hide Shown;
    assert Refreshed(c).listeners == updated;
  }

  function Disconnected(c: Core): Core {
    if c.cancelled then c else Refreshed(c.(state := c.state.(connected := false))).(cancelled := true)
  }

  function Ids(messages: seq<Message>): set<nat> {
    set m | m in messages :: m.id
  }

  predicate Stale(c: Core, s: Snapshot) {
    c.state.revision.Some? && s.revision < c.state.revision.value
  }

  function Applied(c: Core, s: Snapshot): Core {
    if Stale(c, s) then c
    else
      Refreshed(c.(snapshot := Some(s), state := State(true, s.enabled, Some(s.revision)),
                   completed := set item | item in c.completed && item.0 in Ids(s.messages)))
  }

  function Delivered(c: Core, enabled: bool, revision: int): Core {
    Refreshed(c.(state := c.state.(enabled := enabled, revision := Some(revision))))
  }

  function Receipted(c: Core, m: nat, a: Agent): Core {
    Refreshed(c.(completed := c.completed + {(m, a)}))
  }

  function BoundTo(c: Core, a: Agent): Core {
    if a in c.listeners || |c.listeners| >= MAXIMUM_LISTENERS then c
    else Refreshed(c.(listeners := c.listeners[a := Listener(false, false, None)]))
  }

  function Unbound(c: Core, a: Agent): Core {
    c.(listeners := c.listeners - {a})
  }

  // ---- The code

  class FleetConnection {
    var state: State
    var snapshot: Option<Snapshot>
    var listeners: map<Agent, Listener>
    var completed: set<(nat, Agent)>
    var cancelled: bool

    constructor ()
      ensures View() == NEW
    {
      state, snapshot, listeners, completed, cancelled := State(false, false, None), None, map[], {}, false;
    }

    ghost function View(): Core
      reads this
    {
      Core(state, snapshot, listeners, completed, cancelled)
    }

    method Bind(a: Agent) returns (ok: bool)
      modifies `listeners
      ensures View() == old(BoundTo(View(), a)) && ok == (a !in old(listeners) && |old(listeners)| < MAXIMUM_LISTENERS)
    {
      ok := a !in listeners && |listeners| < MAXIMUM_LISTENERS;
      if ok {
        listeners := listeners[a := Listener(false, false, None)];
        Refresh();
      }
    }

    method Unbind(a: Agent)
      modifies `listeners
      ensures View() == old(Unbound(View(), a))
    {
      listeners := listeners - {a};
    }

    method Refresh()
      modifies `listeners
      ensures View() == old(Refreshed(View()))
    {
      hide InputFor;
      ghost var c := View();
      var updated: map<Agent, Listener> := map[];
      var remaining := listeners.Keys;
      while remaining != {}
        invariant View() == c && remaining <= listeners.Keys && updated.Keys == listeners.Keys - remaining
        invariant forall a :: a in updated ==> updated[a] == Shown(c, a)
        decreases |remaining|
      {
        var a :| a in remaining;
        remaining := remaining - {a};
        var input := None;
        if snapshot.Some? {
          input := Select(snapshot.value.messages, a);
        }
        var connected := state.connected && snapshot.Some? && a in snapshot.value.agents;
        var active := connected && state.enabled && state.revision == Some(snapshot.value.revision);
        updated := updated[a := Listener(connected, active, input)];
      }
      AllShown(c, updated);
      listeners := updated;
    }

    method Select(messages: seq<Message>, a: Agent) returns (input: Option<nat>)
      ensures input == InputFor(messages, completed, a)
    {
      var i := 0;
      while i < |messages|
        invariant 0 <= i <= |messages| && InputFor(messages, completed, a) == InputFor(messages[i..], completed, a)
      {
        if a in messages[i].agents && (messages[i].id, a) !in completed {
          return Some(messages[i].id);
        }
        i := i + 1;
      }
      return None;
    }

    method Disconnect()
      modifies this
      ensures View() == old(Disconnected(View()))
    {
      if cancelled {
        return;
      }
      state := state.(connected := false);
      Refresh();
      cancelled := true;
    }

    method Apply(s: Snapshot)
      modifies this
      ensures View() == old(Applied(View(), s))
    {
      if state.revision.Some? && s.revision < state.revision.value {
        return;
      }
      snapshot, state := Some(s), State(true, s.enabled, Some(s.revision));
      completed := set item | item in completed && item.0 in Ids(s.messages);
      Refresh();
    }

    method Delivery(enabled: bool, revision: int)
      modifies this
      ensures View() == old(Delivered(View(), enabled, revision))
    {
      state := state.(enabled := enabled, revision := Some(revision));
      Refresh();
    }

    method Receipt(m: nat, a: Agent)
      modifies this
      ensures View() == old(Receipted(View(), m, a))
    {
      completed := completed + {(m, a)};
      Refresh();
    }
  }

  // ---- The loop and what interleaves with it

  datatype Phase = Top | Ready | Polling | Checked(snapshot: Snapshot)

  datatype World = World(
    core: Core,
    phase: Phase,
    connection: nat,
    releaseRequired: bool,
    reported: set<nat>,       // connections named in a report that they run
    released: set<nat>)       // connections whose release succeeded or met a conflict

  const BEGIN := World(NEW, Top, 0, false, {}, {})

  datatype Event =
    | Enter                                       // the requests of this connection still run
    | Release(done: bool)                         // done for success or conflict
    | Renew
    | Report(accepted: bool)
    | Poll(snapshot: Snapshot)                    // the answer passes its cancellation check, if it does
    | PollFails
    | Apply
    | Disconnect
    | Delivery(enabled: bool, revision: int)
    | Receipt(message: nat, agent: Agent)
    | Bind(agent: Agent)
    | Unbind(agent: Agent)

  function Next(w: World, e: Event): World {
    match e
    case Enter => if w.phase.Top? && !w.core.cancelled then w.(phase := Ready) else w
    case Release(done) =>
      if w.phase.Top? && w.core.cancelled && w.releaseRequired && done
      then w.(releaseRequired := false, released := w.released + {w.connection}) else w
    case Renew =>
      if w.phase.Top? && w.core.cancelled && !w.releaseRequired
      then w.(connection := w.connection + 1, core := w.core.(cancelled := false), phase := Ready) else w
    case Report(accepted) =>
      if !w.phase.Ready? then w
      else
        var v := w.(releaseRequired := true, reported := w.reported + {w.connection});
        if accepted then v.(phase := Polling) else v.(core := Disconnected(w.core), phase := Top)
    case Poll(s) => if !w.phase.Polling? then w else w.(phase := if w.core.cancelled then Top else Checked(s))
    case PollFails => if w.phase.Polling? then w.(core := Disconnected(w.core), phase := Top) else w
    case Apply => if w.phase.Checked? then w.(core := Applied(w.core, w.phase.snapshot), phase := Top) else w
    case Disconnect => w.(core := Disconnected(w.core))
    case Delivery(enabled, revision) => w.(core := Delivered(w.core, enabled, revision))
    case Receipt(m, a) => w.(core := Receipted(w.core, m, a))
    case Bind(a) => w.(core := BoundTo(w.core, a))
    case Unbind(a) => w.(core := Unbound(w.core, a))
  }

  function Run(events: seq<Event>): World {
    if events == [] then BEGIN else Next(Run(events[..|events| - 1]), events[|events| - 1])
  }

  /** The server answers every poll and every change with the flag of the revision it names. */
  predicate Honest(e: Event, flags: Flags) {
    (e.Poll? ==> e.snapshot.enabled == flags(e.snapshot.revision)) && (e.Delivery? ==> e.enabled == flags(e.revision))
  }

  predicate AllHonest(events: seq<Event>, flags: Flags) {
    forall i :: 0 <= i < |events| ==> Honest(events[i], flags)
  }

  // ---- What every step keeps

  predicate Agrees(w: World, flags: Flags) {
    && (w.core.state.revision.Some? ==> w.core.state.enabled == flags(w.core.state.revision.value))
    && (w.core.snapshot.Some? ==> w.core.snapshot.value.enabled == flags(w.core.snapshot.value.revision) && w.core.state.revision.Some?)
    && (w.phase.Checked? ==> w.phase.snapshot.enabled == flags(w.phase.snapshot.revision))
  }

  ghost predicate UpToDate(c: Core) {
    forall a :: a in c.listeners ==> c.listeners[a] == Shown(c, a)
  }

  predicate Leased(w: World) {
    && (forall id :: id in w.reported ==> id <= w.connection && (id in w.released || (id == w.connection && w.releaseRequired)))
    && (w.phase.Polling? || w.phase.Checked? ==> w.releaseRequired)
  }

  lemma StepAgrees(w: World, e: Event, flags: Flags)
    requires Agrees(w, flags) && Honest(e, flags)
    ensures Agrees(Next(w, e), flags)
  {
    hide Shown;
  }

  lemma StepUpToDate(w: World, e: Event)
    requires UpToDate(w.core)
    ensures UpToDate(Next(w, e).core)
  {
    if e.Renew? || e.Unbind? || e.Bind? {
    } else {
      RefreshedUpToDate(w, e);
    }
  }

  lemma RefreshedUpToDate(w: World, e: Event)
    requires UpToDate(w.core) && !e.Renew? && !e.Unbind? && !e.Bind?
    ensures UpToDate(Next(w, e).core)
  {
    hide InputFor;
  }

  lemma StepLeased(w: World, e: Event)
    requires Leased(w)
    ensures Leased(Next(w, e))
  {
    hide Shown, Refreshed, Applied, Delivered, Receipted, BoundTo, Unbound;
  }

  lemma {:induction false} Always(events: seq<Event>, flags: Flags)
    requires AllHonest(events, flags)
    ensures Agrees(Run(events), flags) && UpToDate(Run(events).core) && Leased(Run(events))
  {
    if events != [] {
      var before, e := events[..|events| - 1], events[|events| - 1];
      assert forall i :: 0 <= i < |before| ==> before[i] == events[i];
      Always(before, flags);
      assert Honest(e, flags);
      hide Agrees, UpToDate, Leased, Next, Honest;
      StepAgrees(Run(before), e, flags);
      StepUpToDate(Run(before), e);
      StepLeased(Run(before), e);
    }
  }

  // ---- What it is for

  /** Every active listener is enrolled in the last accepted snapshot and acts on the server's flag for exactly that revision. */
  lemma {:induction false} ActiveAgrees(events: seq<Event>, flags: Flags, a: Agent)
    requires AllHonest(events, flags) && a in Run(events).core.listeners && Run(events).core.listeners[a].active
    ensures var c := Run(events).core;
            && c.state.connected && c.snapshot.Some? && a in c.snapshot.value.agents
            && c.state.revision == Some(c.snapshot.value.revision) && flags(c.snapshot.value.revision)
  {
    Always(events, flags);
    hide Run, InputFor;
  }

  /** The other way: an enrolled listener of a connected controller is active whenever that flag is on and is current. */
  lemma {:induction false} AgreeingActive(events: seq<Event>, flags: Flags, a: Agent)
    requires AllHonest(events, flags) && a in Run(events).core.listeners
    requires var c := Run(events).core; c.state.connected && c.snapshot.Some? && a in c.snapshot.value.agents
    requires var c := Run(events).core; c.state.revision == Some(c.snapshot.value.revision) && flags(c.snapshot.value.revision)
    ensures Run(events).core.listeners[a].active
  {
    Always(events, flags);
    hide Run, InputFor;
  }

  /** And a listener is told that it is connected exactly while the controller is and the last accepted snapshot enrols it. */
  lemma {:induction false} ConnectedExactly(events: seq<Event>, flags: Flags, a: Agent)
    requires AllHonest(events, flags) && a in Run(events).core.listeners
    ensures var c := Run(events).core;
            c.listeners[a].connected <==> c.state.connected && c.snapshot.Some? && a in c.snapshot.value.agents
  {
    Always(events, flags);
    hide Run, InputFor;
  }

  /** The input shown is the first listed message for the agent that it has not completed. */
  lemma {:induction false} InputIsFirst(messages: seq<Message>, completed: set<(nat, Agent)>, a: Agent) returns (i: nat)
    ensures i <= |messages| && forall j :: 0 <= j < i ==> a !in messages[j].agents || (messages[j].id, a) in completed
    ensures InputFor(messages, completed, a) == if i == |messages| then None else Some(messages[i].id)
    ensures i < |messages| ==> a in messages[i].agents && (messages[i].id, a) !in completed
  {
    i := 0;
    if messages != [] && (a !in messages[0].agents || (messages[0].id, a) in completed) {
      i := InputIsFirst(messages[1..], completed, a);
      assert forall j :: 0 < j < |messages| ==> messages[j] == messages[1..][j - 1];
      i := i + 1;
    }
  }

  /** A poll that is not older takes effect at once: from then on exactly its agents are active, on the server's flag. */
  lemma {:induction false} PollTakesEffect(events: seq<Event>, flags: Flags, a: Agent)
    requires AllHonest(events, flags) && Run(events).phase.Checked? && !Stale(Run(events).core, Run(events).phase.snapshot)
    requires a in Run(events).core.listeners
    ensures var s, c := Run(events).phase.snapshot, Next(Run(events), Apply).core;
            && a in c.listeners && c.snapshot == Some(s) && c.state.revision == Some(s.revision)
            && (c.listeners[a].active <==> a in s.agents && flags(s.revision))
  {
    Always(events, flags);
    hide Run, InputFor, UpToDate, Leased;
  }

  /** It keeps of the receipts exactly those of messages that it still lists. */
  lemma {:induction false} ReceiptsKept(events: seq<Event>, m: nat, a: Agent)
    requires Run(events).phase.Checked? && !Stale(Run(events).core, Run(events).phase.snapshot)
    ensures var w, v := Run(events), Run(events + [Apply]);
            (m, a) in v.core.completed <==>
            (m, a) in w.core.completed && exists i :: 0 <= i < |w.phase.snapshot.messages| && w.phase.snapshot.messages[i].id == m
  {
    RunSnoc(events, Apply);
    hide Run, Shown;
  }

  /** A poll older than what is known changes nothing. */
  lemma {:induction false} OlderPollIgnored(events: seq<Event>)
    requires Run(events).phase.Checked? && Stale(Run(events).core, Run(events).phase.snapshot)
    ensures Run(events + [Apply]) == Run(events).(phase := Top)
  {
    RunSnoc(events, Apply);
    hide Run, Shown;
  }

  function Known(w: World): int
    requires w.core.state.revision.Some?
  {
    w.core.state.revision.value
  }

  /**
   * The revision never falls, except through the response to a local change: that response is taken whatever
   * revision it names.
   */
  lemma RevisionFallsExactly(w: World, e: Event)
    requires w.core.state.revision.Some?
    ensures Next(w, e).core.state.revision.Some?
    ensures Known(Next(w, e)) < Known(w) <==> e.Delivery? && e.revision < Known(w)
  {
    hide Shown;
  }

  function Polled(s: Snapshot): seq<Event> {
    [Enter, Report(true), Poll(s), Apply]
  }

  /**
   * All answers can be honest: a response that comes late names a revision below the snapshot's, and the next
   * poll, older than that snapshot, then replaces it.
   */
  lemma {:induction false} OlderPollAccepted(flags: Flags, latest: Snapshot, late: int, older: Snapshot)
    requires late <= older.revision < latest.revision
    requires latest.enabled == flags(latest.revision) && older.enabled == flags(older.revision)
    ensures var events := Polled(latest) + [Event.Delivery(flags(late), late)];
            && AllHonest(events + Polled(older), flags)
            && Run(Polled(latest)).core.state.revision == Some(latest.revision) && Run(events).core.state.revision == Some(late)
            && Run(events + Polled(older)).core.state.revision == Some(older.revision)
            && Run(events + Polled(older)).core.snapshot == Some(older)
  {
    var events := Polled(latest) + [Event.Delivery(flags(late), late)];
    assert Run([]) == BEGIN && [] + Polled(latest) == Polled(latest);
    RunPolled([], latest);
    assert events[..4] == Polled(latest);
    RunPolled(events, older);
    hide Run, Shown, Polled;
    PollRound(BEGIN, latest);
    PollRound(Run(events), older);
  }

  lemma RunPolled(events: seq<Event>, s: Snapshot)
    ensures Run(events + Polled(s)) == Next(Next(Next(Next(Run(events), Enter), Report(true)), Poll(s)), Apply)
  {
    hide Next, Run;
    RunSnoc(events, Enter);
    RunSnoc(events + [Enter], Report(true));
    RunSnoc(events + [Enter] + [Report(true)], Poll(s));
    RunSnoc(events + [Enter] + [Report(true)] + [Poll(s)], Apply);
    assert events + Polled(s) == events + [Enter] + [Report(true)] + [Poll(s)] + [Apply];
  }

  lemma RunSnoc(events: seq<Event>, e: Event)
    ensures Run(events + [e]) == Next(Run(events), e)
  {
    assert (events + [e])[..|events|] == events;
  }

  lemma PollRound(w: World, s: Snapshot)
    requires w.phase.Top? && !w.core.cancelled && !Stale(w.core, s)
    ensures var v := Next(Next(Next(Next(w, Enter), Report(true)), Poll(s)), Apply);
            v.phase.Top? && !v.core.cancelled && v.core.state.revision == Some(s.revision) && v.core.snapshot == Some(s)
  {
    hide Shown;
  }

  /** So once a change is acknowledged, no older poll takes effect while later responses name no older revision. */
  lemma {:induction false} AcknowledgedChangeStays(events: seq<Event>, more: seq<Event>, revision: int)
    requires Run(events).core.state.revision == Some(revision)
    requires forall i :: 0 <= i < |more| && more[i].Delivery? ==> more[i].revision >= revision
    ensures Run(events + more).core.state.revision.Some? && Known(Run(events + more)) >= revision
  {
    if more == [] {
      assert events + more == events;
    } else {
      var before := more[..|more| - 1];
      assert forall i :: 0 <= i < |before| ==> before[i] == more[i];
      AcknowledgedChangeStays(events, before, revision);
      assert (events + more)[..|events + more| - 1] == events + before;
      hide Next;
      RevisionFallsExactly(Run(events + before), more[|more| - 1]);
      StaysIfNotLower(Run(events + before), more[|more| - 1], revision);
    }
  }

  lemma StaysIfNotLower(w: World, e: Event, revision: int)
    requires w.core.state.revision.Some? && Known(w) >= revision && (e.Delivery? ==> e.revision >= revision)
    ensures Next(w, e).core.state.revision.Some? && Known(Next(w, e)) >= revision
  {
    hide Shown;
  }

  /** A connection is reported only when every other one ever reported was released, or its release met a conflict. */
  lemma {:induction false} LeasesInOrder(events: seq<Event>, flags: Flags, accepted: bool)
    requires AllHonest(events, flags)
    ensures var w, v := Run(events), Next(Run(events), Report(accepted));
            forall id :: v.reported != w.reported && id in w.reported && id != w.connection ==> id in w.released
    ensures var w, v := Run(events), Next(Run(events), Renew); v.connection != w.connection ==> w.reported <= w.released
  {
    Always(events, flags);
    hide Run, Shown;
  }

  /**
   * A controller that was disconnected connects again once its connection is released: under a new connection,
   * with the next answer that is not older than what it knows.
   */
  lemma {:induction false} Reconnects(events: seq<Event>, flags: Flags, s: Snapshot)
    requires AllHonest(events, flags) && Run(events).phase.Top? && Run(events).core.cancelled && !Stale(Run(events).core, s)
    ensures var w, v := Run(events), Run(events + [Release(true)] + [Renew] + [Report(true)] + [Poll(s)] + [Apply]);
            && !v.core.cancelled && v.core.state == State(true, s.enabled, Some(s.revision)) && v.core.snapshot == Some(s)
            && v.connection !in w.reported && v.connection in v.reported
  {
    Always(events, flags);
    RunSnoc(events, Release(true));
    RunSnoc(events + [Release(true)], Renew);
    RunSnoc(events + [Release(true)] + [Renew], Report(true));
    RunSnoc(events + [Release(true)] + [Renew] + [Report(true)], Poll(s));
    RunSnoc(events + [Release(true)] + [Renew] + [Report(true)] + [Poll(s)], Apply);
    hide Run, Shown, UpToDate;
  }

  predicate Offered(s: Snapshot, m: nat) {
    m in Ids(s.messages)
  }

  /** No accepted snapshot since then dropped the message. */
  predicate StillListed(events: seq<Event>, more: seq<Event>, m: nat) {
    forall i :: 0 <= i < |more| && more[i].Apply? ==>
      var w := Run(events + more[..i]); w.phase.Checked? && !Stale(w.core, w.phase.snapshot) ==> Offered(w.phase.snapshot, m)
  }

  /** An acknowledged message is not given to the agent again while the server still lists it. */
  lemma {:induction false} NotGivenTwice(events: seq<Event>, more: seq<Event>, flags: Flags, m: nat, a: Agent)
    requires AllHonest(events + more, flags) && (m, a) in Run(events).core.completed && StillListed(events, more, m)
    ensures (m, a) in Run(events + more).core.completed
    ensures a in Run(events + more).core.listeners ==> Run(events + more).core.listeners[a].input != Some(m)
  {
    if more == [] {
      assert events + more == events;
    } else {
      var before := more[..|more| - 1];
      assert events + more == events + before + [more[|before|]];
      assert forall i :: 0 <= i < |events + before| ==> (events + before)[i] == (events + more)[i];
      assert forall i :: 0 <= i < |before| ==> before[i] == more[i] && before[..i] == more[..i];
      NotGivenTwice(events, before, flags, m, a);
      assert (events + more)[..|events + more| - 1] == events + before;
      assert more[..|before|] == before;
      KeepsCompleted(Run(events + before), more[|before|], m, a);
    }
    Always(events + more, flags);
    var c := Run(events + more).core;
    hide Run;
    if c.snapshot.Some? { NoInput(c.snapshot.value.messages, c.completed, m, a); }
  }

  /** So once a receipt is recorded the message is not given again, for as long as the server lists it. */
  lemma {:induction false} ReceiptEndsInput(events: seq<Event>, more: seq<Event>, flags: Flags, m: nat, a: Agent)
    requires AllHonest(events + [Event.Receipt(m, a)] + more, flags) && StillListed(events + [Event.Receipt(m, a)], more, m)
    ensures var c := Run(events + [Event.Receipt(m, a)] + more).core; a in c.listeners ==> c.listeners[a].input != Some(m)
  {
    var acknowledged := events + [Event.Receipt(m, a)];
    RunSnoc(events, Event.Receipt(m, a));
    assert (m, a) in Run(acknowledged).core.completed;
    hide Run, AllHonest;
    NotGivenTwice(events + [Event.Receipt(m, a)], more, flags, m, a);
  }

  /** A listener is bound exactly when it is not bound yet and fewer than 100 are, and it is shown what there is at once. */
  lemma {:induction false} BindsExactly(events: seq<Event>, a: Agent)
    ensures var c, d := Run(events).core, Run(events + [Event.Bind(a)]).core;
            if a !in c.listeners && |c.listeners| < 100 then d.listeners.Keys == c.listeners.Keys + {a} && d.listeners[a] == Shown(c, a)
            else d == c
  {
    RunSnoc(events, Event.Bind(a));
    hide Run, InputFor;
  }

  lemma KeepsCompleted(w: World, e: Event, m: nat, a: Agent)
    requires (m, a) in w.core.completed
    requires e.Apply? && w.phase.Checked? && !Stale(w.core, w.phase.snapshot) ==> Offered(w.phase.snapshot, m)
    ensures (m, a) in Next(w, e).core.completed
  {
    hide Shown;
  }

  lemma {:induction false} NoInput(messages: seq<Message>, completed: set<(nat, Agent)>, m: nat, a: Agent)
    requires (m, a) in completed
    ensures InputFor(messages, completed, a) != Some(m)
  {
    if messages != [] {
      NoInput(messages[1..], completed, m, a);
    }
  }

  // ---- Disconnection

  /** No answer that passed its check is applied after a disconnection. */
  predicate NoLateApply(events: seq<Event>) {
    forall i :: 0 <= i < |events| && events[i].Apply? && Run(events[..i]).phase.Checked? ==> !Run(events[..i]).core.cancelled
  }

  /** Then a controller whose requests are cancelled is not connected. */
  lemma {:induction false} CancelledMeansDisconnected(events: seq<Event>)
    requires NoLateApply(events)
    ensures Run(events).core.cancelled ==> !Run(events).core.state.connected
  {
    if events != [] {
      var before := events[..|events| - 1];
      assert forall i :: 0 <= i < |before| ==> before[i] == events[i] && before[..i] == events[..i];
      CancelledMeansDisconnected(before);
      assert events[..|before|] == before;
      hide Next;
      LateApplyExactly(Run(before), events[|before|]);
    }
  }

  /** One step connects a disconnected controller exactly when it applies a current answer after the cancellation. */
  lemma LateApplyExactly(w: World, e: Event)
    requires !(w.core.cancelled && w.core.state.connected)
    ensures Next(w, e).core.cancelled && Next(w, e).core.state.connected <==>
            e.Apply? && w.phase.Checked? && w.core.cancelled && !Stale(w.core, w.phase.snapshot)
  {
    hide Shown;
  }

  /** The check and the application are two steps, so an answer can still connect a controller after its disconnection. */
  lemma LateApplyConnects(s: Snapshot)
    ensures var w := Run([Enter, Report(true), Poll(s), Disconnect, Apply]); w.core.cancelled && w.core.state.connected
    ensures var w := Run([Enter, Report(true), Poll(s), Disconnect, Apply, Disconnect]); w.core.state.connected
  {
    var events := [Enter, Report(true), Poll(s), Disconnect, Apply, Disconnect];
    forall i | 0 <= i < 6 ensures Run(events[..i + 1]) == Next(Run(events[..i]), events[i]) {
      assert events[..i + 1][..i] == events[..i];
    }
    assert events[..0] == [] && Run(events[..0]) == BEGIN;
    hide Run, Shown;
    assert events[..6] == events && events[..5] == [Enter, Report(true), Poll(s), Disconnect, Apply];
    var ready := Run(events[..1]);
    assert ready.phase.Ready? && !ready.core.cancelled && ready.core.state.revision == None;
    var polling := Run(events[..2]);
    assert polling.phase.Polling? && !polling.core.cancelled && polling.core.state.revision == None;
    var checked := Run(events[..3]);
    assert checked.phase == Checked(s) && checked.core.state.revision == None;
    var cut := Run(events[..4]);
    assert cut.phase == Checked(s) && cut.core.cancelled && cut.core.state.revision == None;
  }
}

/**
 * AccountAuthority.cs: Exclusive, a table of reference-counted semaphores that exist only while someone uses
 * their key, and the operations that nest one Exclusive call inside another. Table holds the dictionary and
 * the semaphores; the World around it runs any number of calls, each cut anywhere by cancellation.
 */
module KeyedLocks {
  import opened Prelude

  // ---- Keys and the operations that take them

  datatype Key = Agent(id: string) | Registration(id: string) | Room(id: string) | Conversation(id: string) | Invitations(id: string) | User(id: string)

  /** The string under which the dictionary files the key. */
  function Text(k: Key): string {
    match k
    case Agent(id) => "room:agent:" + id
    case Registration(id) => "room:registration:" + id
    case Room(id) => "room:" + id
    case Conversation(id) => "owner-conversation:" + id
    case Invitations(id) => "invitations:" + id
    case User(id) => id
  }

  /** Room identifiers start with '!' and user identifiers with '@'. */
  predicate Formed(k: Key) {
    (k.Room? ==> k.id != "" && k.id[0] == '!') && (k.User? ==> k.id != "" && k.id[0] == '@')
  }

  lemma TextsDiffer(k: Key, l: Key)
    requires Formed(k) && Formed(l) && Text(k) == Text(l)
    ensures k == l
  {
    var t := Text(k);
    InRoomSpace(k);
    InRoomSpace(l);
    assert k.Conversation? ==> t[0] == 'o' && t[19..] == k.id;
    assert l.Conversation? ==> t[0] == 'o' && t[19..] == l.id;
    assert k.Invitations? ==> t[0] == 'i' && t[12..] == k.id;
    assert l.Invitations? ==> t[0] == 'i' && t[12..] == l.id;
  }

  /** The three kinds of key that share a prefix differ in the character after it. */
  lemma InRoomSpace(k: Key)
    requires Formed(k)
    ensures var t := Text(k);
            && (k.Agent? || k.Registration? || k.Room? <==> t != "" && t[0] == 'r')
            && (k.Agent? ==> t[5] == 'a' && t[11..] == k.id) && (k.Registration? ==> t[5] == 'r' && t[18..] == k.id)
            && (k.Room? ==> t[5] == '!' && t[5..] == k.id)
  {
    var t := Text(k);
    match k
    case Agent(id) => assert t == "room:agent:" + id;
    case Registration(id) => assert t == "room:registration:" + id;
    case Room(id) => assert t == "room:" + id;
    case _ =>
  }

  /** An operation that runs under one key, with the operations it may start, in order, while it holds that key. */
  datatype Operation =
    | AsUser(id: string)                                  // OpenAsUser, and Register for Provision
    | Deactivate(id: string)                              // Remove, also reached through Discard
    | Invitation(id: string, events: seq<string>)         // the account, then the accounts that read the event
    | OwnerConversation(owner: string, agent: string, checks: seq<string>)
    | RoomTask(id: string, body: seq<Operation>)          // RoomReconciliation
    | AgentTask(id: string, body: seq<Operation>)         // OwnerConversations.Ensure and PrincipalApplications.Reconcile
    | RegistrationTask(id: string, body: seq<Operation>)  // MemberRegistration.Register

  function KeyOf(o: Operation): Key {
    match o
    case AsUser(id) => User(id)
    case Deactivate(id) => User(id)
    case Invitation(id, _) => Invitations(id)
    case OwnerConversation(owner, _, _) => Conversation(owner)
    case RoomTask(id, _) => Room(id)
    case AgentTask(id, _) => Agent(id)
    case RegistrationTask(id, _) => Registration(id)
  }

  /** The service account deactivates others, and is never deactivated itself. */
  function Body(o: Operation, service: string): seq<Operation> {
    match o
    case AsUser(_) => []
    case Deactivate(id) => if id == service then [] else [AsUser(service)]
    case Invitation(id, events) => [AsUser(id)] + Reads(events)
    case OwnerConversation(owner, agent, checks) => [AsUser(owner), AsUser(agent)] + Reads(checks)
    case RoomTask(_, body) => body
    case AgentTask(_, body) => body
    case RegistrationTask(_, body) => body
  }

  function Reads(users: seq<string>): (r: seq<Operation>)
    ensures |r| == |users| && forall i :: 0 <= i < |r| ==> r[i] == AsUser(users[i])
  {
    seq(|users|, i requires 0 <= i < |users| => AsUser(users[i]))
  }

  predicate TakesRoomSpace(o: Operation) {
    o.RoomTask? || o.AgentTask? || o.RegistrationTask?
  }

  /** Tasks with keys in the space of rooms do not nest one another, but that an agent task may start a room task. */
  predicate Allowed(o: Operation) {
    match o
    case RoomTask(_, body) => forall i :: 0 <= i < |body| ==> !TakesRoomSpace(body[i])
    case RegistrationTask(_, body) => forall i :: 0 <= i < |body| ==> !TakesRoomSpace(body[i])
    case AgentTask(_, body) => forall i :: 0 <= i < |body| ==> !body[i].AgentTask? && !body[i].RegistrationTask? && Allowed(body[i])
    case _ => true
  }

  function Rank(k: Key, service: string): nat {
    match k
    case Agent(_) => 0
    case Registration(_) => 0
    case Room(_) => 1
    case Conversation(_) => 2
    case Invitations(_) => 2
    case User(id) => if id == service then 4 else 3
  }

  /** Nested acquisitions always go agent or registration, room, conversation or invitations, ordinary user, service user. */
  lemma {:induction false} NestingClimbs(o: Operation, service: string, i: nat)
    requires Allowed(o) && i < |Body(o, service)|
    ensures var inner := Body(o, service)[i]; Allowed(inner) && Rank(KeyOf(inner), service) > Rank(KeyOf(o), service)
  {
    var inner := Body(o, service)[i];
    if TakesRoomSpace(o) {
      assert inner == o.body[i];
    } else if !o.Deactivate? {
      assert inner.AsUser?;
    }
  }

  // ---- The dictionary and its semaphores

  /** A semaphore of one; key is the key it was created for and serves only the proofs. */
  datatype Gate = Gate(key: Key, free: bool, disposed: bool)

  datatype Entry = Entry(gate: nat, references: nat)

  datatype Table = Table(operations: map<Key, Entry>, gates: map<nat, Gate>, created: nat)

  const EMPTY := Table(map[], map[], 0)

  function GateFor(t: Table, k: Key): nat {
    if k in t.operations then t.operations[k].gate else t.created
  }

  function Referenced(t: Table, k: Key): Table {
    if k in t.operations then t.(operations := t.operations[k := t.operations[k].(references := t.operations[k].references + 1)])
    else Table(t.operations[k := Entry(t.created, 1)], t.gates[t.created := Gate(k, true, false)], t.created + 1)
  }

  function Released(t: Table, g: nat, free: bool): Table
    requires g in t.gates
  {
    t.(gates := t.gates[g := t.gates[g].(free := free)])
  }

  function Dereferenced(t: Table, k: Key): Table
    requires k in t.operations && t.operations[k].references > 0 && t.operations[k].gate in t.gates
  {
    var e := t.operations[k];
    if e.references == 1 then t.(operations := t.operations - {k}, gates := t.gates[e.gate := t.gates[e.gate].(disposed := true)])
    else t.(operations := t.operations[k := e.(references := e.references - 1)])
  }

  /** The dictionary under operationLock and the semaphores it hands out, by identity. */
  class Authority {
    var operations: map<Key, Entry>
    var gates: map<nat, Gate>
    var created: nat

    constructor ()
      ensures View() == EMPTY
    {
      operations, gates, created := map[], map[], 0;
    }

    ghost function View(): Table
      reads this
    {
      Table(operations, gates, created)
    }

    /** The first locked section of Exclusive. */
    method Reference(k: Key) returns (gate: nat)
      modifies this
      ensures View() == old(Referenced(View(), k)) && gate == old(GateFor(View(), k))
    {
      if k in operations {
        gate := operations[k].gate;
        operations := operations[k := Entry(gate, operations[k].references + 1)];
      } else {
        gate := created;
        gates := gates[gate := Gate(k, true, false)];
        created := created + 1;
        operations := operations[k := Entry(gate, 1)];
      }
    }

    /** WaitAsync when it does not have to wait. */
    method TryWait(g: nat) returns (entered: bool)
      requires g in gates
      modifies `gates
      ensures entered == old(gates[g].free)
      ensures View() == if entered then old(Released(View(), g, false)) else old(View())
    {
      entered := gates[g].free;
      if entered {
        gates := gates[g := gates[g].(free := false)];
      }
    }

    method Release(g: nat)
      requires g in gates
      modifies `gates
      ensures View() == old(Released(View(), g, true))
    {
      gates := gates[g := gates[g].(free := true)];
    }

    /** The second locked section: the last one out removes the key and disposes the semaphore. */
    method Dereference(k: Key, g: nat)
      requires k in operations && operations[k].references > 0 && operations[k].gate == g && g in gates
      modifies this
      ensures View() == old(Dereferenced(View(), k))
    {
      if operations[k].references == 1 {
        operations := operations - {k};
        gates := gates[g := gates[g].(disposed := true)];
      } else {
        operations := operations[k := Entry(g, operations[k].references - 1)];
      }
    }
  }

  // ---- Calls of Exclusive, running together

  datatype Phase = Waiting | Holding(rest: seq<Operation>, child: int) | Exiting

  const NOBODY := -1

  /** One call between its two locked sections. parent is the call that awaits it, or NOBODY. */
  datatype Call = Call(operation: Operation, gate: nat, phase: Phase, parent: int)

  datatype World = World(
    table: Table,
    calls: map<int, Call>,
    holder: map<nat, int>)      // the call that entered each semaphore; kept only for the proofs

  const BEGIN := World(EMPTY, map[], map[])

  datatype Event =
    | Start(call: int, operation: Operation)
    | Nest(call: int, outer: int)
    | Acquire(call: int)
    | Cancel(call: int)
    | Skip(call: int)            // the next nested operation is not needed
    | Finish(call: int)          // the operation returns, fails or is cancelled
    | Exit(call: int)

  predicate Idle(w: World, c: int) {
    c in w.calls && w.calls[c].phase.Holding? && w.calls[c].phase.child == NOBODY
  }

  function Add(w: World, c: int, o: Operation, parent: int): World {
    w.(table := Referenced(w.table, KeyOf(o)), calls := w.calls[c := Call(o, GateFor(w.table, KeyOf(o)), Waiting, parent)])
  }

  function Adopt(calls: map<int, Call>, p: int, rest: seq<Operation>, child: int): map<int, Call>
    requires p in calls
  {
    calls[p := calls[p].(phase := Holding(rest, child))]
  }

  function Next(w: World, e: Event, service: string): World {
    match e
    case Start(c, o) => if c < 0 || c in w.calls || !Allowed(o) then w else Add(w, c, o, NOBODY)
    case Nest(c, p) =>
      if c < 0 || c in w.calls || !Idle(w, p) || w.calls[p].phase.rest == [] then w
      else
        var rest := w.calls[p].phase.rest;
        Add(w.(calls := Adopt(w.calls, p, rest[1..], c)), c, rest[0], p)
    case Acquire(c) =>
      if c !in w.calls || !w.calls[c].phase.Waiting? || w.calls[c].gate !in w.table.gates || !w.table.gates[w.calls[c].gate].free then w
      else
        World(Released(w.table, w.calls[c].gate, false), Adopt(w.calls, c, Body(w.calls[c].operation, service), NOBODY),
              w.holder[w.calls[c].gate := c])
    case Cancel(c) => if c !in w.calls || !w.calls[c].phase.Waiting? then w else w.(calls := w.calls[c := w.calls[c].(phase := Exiting)])
    case Skip(c) =>
      if !Idle(w, c) || w.calls[c].phase.rest == [] then w else w.(calls := Adopt(w.calls, c, w.calls[c].phase.rest[1..], NOBODY))
    case Finish(c) =>
      if !Idle(w, c) || w.calls[c].gate !in w.table.gates then w
      else
        World(Released(w.table, w.calls[c].gate, true), w.calls[c := w.calls[c].(phase := Exiting)], w.holder - {w.calls[c].gate})
    case Exit(c) =>
      if c !in w.calls || !w.calls[c].phase.Exiting? || !Listed(w.table, KeyOf(w.calls[c].operation)) then w
      else
        var p := w.calls[c].parent;
        w.(table := Dereferenced(w.table, KeyOf(w.calls[c].operation)), calls := Orphan(w.calls, p) - {c})
  }

  predicate Listed(t: Table, k: Key) {
    k in t.operations && t.operations[k].references > 0 && t.operations[k].gate in t.gates
  }

  /** The outer call goes on once the call it awaited is gone. */
  function Orphan(calls: map<int, Call>, p: int): map<int, Call> {
    if p in calls && calls[p].phase.Holding? then Adopt(calls, p, calls[p].phase.rest, NOBODY) else calls
  }

  function Run(events: seq<Event>, service: string): World {
    if events == [] then BEGIN else Next(Run(events[..|events| - 1], service), events[|events| - 1], service)
  }

  // ---- What every step keeps

  /** A semaphore is disposed exactly when the dictionary no longer holds it for its key. */
  ghost predicate GatesFit(operations: map<Key, Entry>, gates: map<nat, Gate>, created: nat) {
    && (forall g :: g in gates ==>
          g < created && (!gates[g].disposed <==> gates[g].key in operations && operations[gates[g].key].gate == g))
    && (forall k :: k in operations ==> operations[k].gate in gates && gates[operations[k].gate].key == k)
  }

  /** Every call between its locked sections uses the semaphore that the dictionary holds for its key. */
  ghost predicate Joined(operations: map<Key, Entry>, calls: map<int, Call>) {
    forall c :: c in calls ==> KeyOf(calls[c].operation) in operations && operations[KeyOf(calls[c].operation)].gate == calls[c].gate
  }

  function Users(calls: map<int, Call>, k: Key): set<int> {
    set c | c in calls && KeyOf(calls[c].operation) == k
  }

  ghost predicate Counted(operations: map<Key, Entry>, calls: map<int, Call>) {
    forall k :: k in operations ==> operations[k].references == |Users(calls, k)| && operations[k].references > 0
  }

  ghost predicate Held(gates: map<nat, Gate>, calls: map<int, Call>, holder: map<nat, int>) {
    && (forall g :: g in gates ==> (gates[g].free <==> g !in holder))
    && (forall g :: g in holder ==> holder[g] in calls && calls[holder[g]].gate == g && calls[holder[g]].phase.Holding?)
    && (forall c :: c in calls && calls[c].phase.Holding? ==> calls[c].gate in holder && holder[calls[c].gate] == c)
  }

  ghost predicate Climbs(o: Operation, rest: seq<Operation>, service: string) {
    forall i :: 0 <= i < |rest| ==> Allowed(rest[i]) && Rank(KeyOf(rest[i]), service) > Rank(KeyOf(o), service)
  }

  ghost predicate Nested(calls: map<int, Call>, c: int, service: string)
    requires c in calls
  {
    var call := calls[c];
    && Allowed(call.operation) && c >= 0
    && (call.parent != NOBODY ==>
          call.parent in calls && calls[call.parent].phase.Holding? && calls[call.parent].phase.child == c)
    && (call.phase.Holding? ==> Climbs(call.operation, call.phase.rest, service))
    && (call.phase.Holding? && call.phase.child != NOBODY ==>
          && call.phase.child in calls && calls[call.phase.child].parent == c
          && Rank(KeyOf(calls[call.phase.child].operation), service) > Rank(KeyOf(call.operation), service))
  }

  ghost predicate Tree(calls: map<int, Call>, service: string) {
    forall c :: c in calls ==> Nested(calls, c, service)
  }

  ghost predicate Inv(w: World, service: string) {
    && GatesFit(w.table.operations, w.table.gates, w.table.created)
    && Joined(w.table.operations, w.calls) && Counted(w.table.operations, w.calls)
    && Held(w.table.gates, w.calls, w.holder) && Tree(w.calls, service)
  }

  lemma BodyClimbs(o: Operation, service: string)
    requires Allowed(o)
    ensures Climbs(o, Body(o, service), service)
  {
    forall i | 0 <= i < |Body(o, service)|
      ensures Allowed(Body(o, service)[i]) && Rank(KeyOf(Body(o, service)[i]), service) > Rank(KeyOf(o), service)
    {
      NestingClimbs(o, service, i);
    }
  }

  /** The locked section that adds one reference, and the call that took it. */
  lemma AddKeeps(w: World, c: int, o: Operation, parent: int)
    requires GatesFit(w.table.operations, w.table.gates, w.table.created) && Joined(w.table.operations, w.calls)
    requires c !in w.calls
    ensures var v := Add(w, c, o, parent);
            GatesFit(v.table.operations, v.table.gates, v.table.created) && Joined(v.table.operations, v.calls)
  {
  }

  lemma AddCounted(w: World, c: int, o: Operation, parent: int)
    requires Joined(w.table.operations, w.calls) && Counted(w.table.operations, w.calls) && c !in w.calls
    ensures var v := Add(w, c, o, parent); Counted(v.table.operations, v.calls)
  {
    NewUser(w.calls, c, Call(o, GateFor(w.table, KeyOf(o)), Waiting, parent));
    if KeyOf(o) !in w.table.operations { Unlisted(w.table.operations, w.calls, KeyOf(o)); }
    hide Users, Joined;
  }

  lemma Unlisted(operations: map<Key, Entry>, calls: map<int, Call>, k: Key)
    requires Joined(operations, calls) && k !in operations
    ensures Users(calls, k) == {}
  {
    forall c ensures c !in Users(calls, k) {}
  }

  lemma NewUser(calls: map<int, Call>, c: int, call: Call)
    requires c !in calls
    ensures |Users(calls[c := call], KeyOf(call.operation))| == |Users(calls, KeyOf(call.operation))| + 1
    ensures forall k :: k != KeyOf(call.operation) ==> Users(calls[c := call], k) == Users(calls, k)
  {
    var key := KeyOf(call.operation);
    assert Users(calls[c := call], key) == Users(calls, key) + {c};
    assert c !in Users(calls, key);
  }

  lemma AddHeld(w: World, c: int, o: Operation, parent: int)
    requires Held(w.table.gates, w.calls, w.holder) && GatesFit(w.table.operations, w.table.gates, w.table.created) && c !in w.calls
    requires Joined(w.table.operations, w.calls)
    ensures var v := Add(w, c, o, parent); Held(v.table.gates, v.calls, v.holder)
  {
    forall g | g in w.holder ensures g != w.table.created {
      var c := w.holder[g];
      assert c in w.calls && w.calls[c].gate == g;
      assert KeyOf(w.calls[c].operation) in w.table.operations;
      assert g in w.table.gates;
    }
  }

  /** The calls of one key after one of them changed its phase only. */
  lemma SameUsers(operations: map<Key, Entry>, calls: map<int, Call>, c: int, phase: Phase)
    requires c in calls
    ensures Joined(operations, calls) ==> Joined(operations, calls[c := calls[c].(phase := phase)])
    ensures Counted(operations, calls) ==> Counted(operations, calls[c := calls[c].(phase := phase)])
  {
    var after := calls[c := calls[c].(phase := phase)];
    forall k ensures Users(after, k) == Users(calls, k) {}
  }

  lemma SamePhase(gates: map<nat, Gate>, calls: map<int, Call>, holder: map<nat, int>, c: int, phase: Phase)
    requires c in calls && calls[c].phase.Holding? == phase.Holding?
    ensures Held(gates, calls, holder) ==> Held(gates, calls[c := calls[c].(phase := phase)], holder)
  {
  }

  lemma NestedTree(calls: map<int, Call>, p: int, c: int, o: Operation, gate: nat, rest: seq<Operation>, service: string)
    requires Tree(calls, service) && p in calls && c !in calls && c >= 0 && calls[p].phase.Holding? && calls[p].phase.child == NOBODY
    requires calls[p].phase.rest == [o] + rest
    ensures Tree(Adopt(calls, p, rest, c)[c := Call(o, gate, Waiting, p)], service)
  {
    var after := Adopt(calls, p, rest, c)[c := Call(o, gate, Waiting, p)];
    assert Nested(calls, p, service);
    assert forall i :: 0 <= i < |rest| ==> rest[i] == calls[p].phase.rest[i + 1];
    assert calls[p].phase.rest[0] == o;
    assert Climbs(after[p].operation, rest, service);
    hide Climbs;
    forall d | d in after ensures Nested(after, d, service) {
      if d != c && d != p { assert Nested(calls, d, service); }
    }
  }

  lemma StartTree(calls: map<int, Call>, c: int, o: Operation, gate: nat, service: string)
    requires Tree(calls, service) && c !in calls && c >= 0 && Allowed(o)
    ensures Tree(calls[c := Call(o, gate, Waiting, NOBODY)], service)
  {
    var after := calls[c := Call(o, gate, Waiting, NOBODY)];
    forall d | d in after ensures Nested(after, d, service) {
      if d != c { assert Nested(calls, d, service); }
    }
  }

  /** A call with no child changes its own phase, and stays without a child. */
  lemma PhaseTree(calls: map<int, Call>, c: int, phase: Phase, service: string)
    requires Tree(calls, service) && c in calls && (calls[c].phase.Holding? ==> calls[c].phase.child == NOBODY)
    requires phase.Holding? ==> phase.child == NOBODY && Climbs(calls[c].operation, phase.rest, service)
    ensures Tree(calls[c := calls[c].(phase := phase)], service)
  {
    var after := calls[c := calls[c].(phase := phase)];
    forall d | d in after ensures Nested(after, d, service) {
      assert Nested(calls, d, service);
    }
  }

  lemma BeginKeeps(w: World, e: Event, service: string)
    requires Inv(w, service) && (e.Start? || e.Nest?)
    ensures Inv(Next(w, e, service), service)
  {
    hide GatesFit, Joined, Counted, Held, Tree, Referenced;
    var c := e.call;
    if c >= 0 && c !in w.calls && e.Start? && Allowed(e.operation) {
      AddKeeps(w, c, e.operation, NOBODY);
      AddCounted(w, c, e.operation, NOBODY);
      AddHeld(w, c, e.operation, NOBODY);
      StartTree(w.calls, c, e.operation, GateFor(w.table, KeyOf(e.operation)), service);
    } else if c >= 0 && c !in w.calls && e.Nest? && Idle(w, e.outer) && w.calls[e.outer].phase.rest != [] {
      var p, rest := e.outer, w.calls[e.outer].phase.rest;
      var v := w.(calls := Adopt(w.calls, p, rest[1..], c));
      SameUsers(w.table.operations, w.calls, p, Holding(rest[1..], c));
      SamePhase(w.table.gates, w.calls, w.holder, p, Holding(rest[1..], c));
      AddKeeps(v, c, rest[0], p);
      AddCounted(v, c, rest[0], p);
      AddHeld(v, c, rest[0], p);
      NestedTree(w.calls, p, c, rest[0], GateFor(w.table, KeyOf(rest[0])), rest[1..], service);
    }
  }

  /** Entering and releasing a semaphore, or giving up the wait. */
  lemma PhaseKeeps(w: World, e: Event, service: string)
    requires Inv(w, service) && (e.Acquire? || e.Cancel? || e.Skip? || e.Finish?)
    ensures Inv(Next(w, e, service), service)
  {
    hide GatesFit, Joined, Counted, Held, Tree, Body;
    var c := e.call;
    if c in w.calls {
      var phase := w.calls[c].phase;
      SameUsers(w.table.operations, w.calls, c, Exiting);
      if e.Acquire? && phase.Waiting? && w.calls[c].gate in w.table.gates {
        SameUsers(w.table.operations, w.calls, c, Holding(Body(w.calls[c].operation, service), NOBODY));
        SameGates(w.table, w.calls[c].gate, false);
        AcquireHeld(w.table.gates, w.calls, w.holder, c, Body(w.calls[c].operation, service));
        TreeAllows(w.calls, c, service);
        BodyClimbs(w.calls[c].operation, service);
        PhaseTree(w.calls, c, Holding(Body(w.calls[c].operation, service), NOBODY), service);
      } else if e.Cancel? && phase.Waiting? {
        SamePhase(w.table.gates, w.calls, w.holder, c, Exiting);
        PhaseTree(w.calls, c, Exiting, service);
      } else if e.Skip? && Idle(w, c) && phase.rest != [] {
        SameUsers(w.table.operations, w.calls, c, Holding(phase.rest[1..], NOBODY));
        SamePhase(w.table.gates, w.calls, w.holder, c, Holding(phase.rest[1..], NOBODY));
        TreeAllows(w.calls, c, service);
        PhaseTree(w.calls, c, Holding(phase.rest[1..], NOBODY), service);
      } else if e.Finish? && Idle(w, c) && w.calls[c].gate in w.table.gates {
        SameGates(w.table, w.calls[c].gate, true);
        FinishHeld(w.table.gates, w.calls, w.holder, c);
        PhaseTree(w.calls, c, Exiting, service);
      }
    }
  }

  lemma TreeAllows(calls: map<int, Call>, c: int, service: string)
    requires Tree(calls, service) && c in calls
    ensures Allowed(calls[c].operation) && (calls[c].phase.Holding? ==> Climbs(calls[c].operation, calls[c].phase.rest, service))
  {
    assert Nested(calls, c, service);
  }

  lemma SameGates(t: Table, g: nat, free: bool)
    requires GatesFit(t.operations, t.gates, t.created) && g in t.gates
    ensures GatesFit(t.operations, Released(t, g, free).gates, t.created)
  {
  }

  lemma AcquireHeld(gates: map<nat, Gate>, calls: map<int, Call>, holder: map<nat, int>, c: int, rest: seq<Operation>)
    requires Held(gates, calls, holder) && c in calls && calls[c].phase.Waiting? && calls[c].gate in gates
    ensures gates[calls[c].gate].free ==>
              Held(gates[calls[c].gate := gates[calls[c].gate].(free := false)], Adopt(calls, c, rest, NOBODY), holder[calls[c].gate := c])
  {
  }

  lemma FinishHeld(gates: map<nat, Gate>, calls: map<int, Call>, holder: map<nat, int>, c: int)
    requires Held(gates, calls, holder) && c in calls && calls[c].phase.Holding? && calls[c].gate in gates
    ensures Held(gates[calls[c].gate := gates[calls[c].gate].(free := true)], calls[c := calls[c].(phase := Exiting)], holder - {calls[c].gate})
  {
  }

  /** The second locked section. The last user of a key is the last call that could reach its semaphore. */
  lemma ExitKeeps(w: World, c: int, service: string)
    requires Inv(w, service)
    ensures Inv(Next(w, Exit(c), service), service)
  {
    hide GatesFit, Joined, Counted, Held, Tree, Dereferenced, Orphan;
    if c in w.calls && w.calls[c].phase.Exiting? && Listed(w.table, KeyOf(w.calls[c].operation)) {
      var p := w.calls[c].parent;
      OrphanSame(w, p);
      OrphanTree(w.calls, c, service);
      DropUser(w.table, Orphan(w.calls, p), c);
      DropCounted(w.table, Orphan(w.calls, p), c);
      DropHeld(w.table, Orphan(w.calls, p), w.holder, c);
    }
  }

  lemma OrphanSame(w: World, p: int)
    requires Joined(w.table.operations, w.calls) && Counted(w.table.operations, w.calls) && Held(w.table.gates, w.calls, w.holder)
    ensures var calls := Orphan(w.calls, p);
            && Joined(w.table.operations, calls) && Counted(w.table.operations, calls) && Held(w.table.gates, calls, w.holder)
            && calls.Keys == w.calls.Keys
            && forall d :: d in calls ==> calls[d].operation == w.calls[d].operation && (w.calls[d].phase.Exiting? ==> calls[d] == w.calls[d])
  {
    hide Joined, Counted, Held;
    if p in w.calls && w.calls[p].phase.Holding? {
      SameUsers(w.table.operations, w.calls, p, Holding(w.calls[p].phase.rest, NOBODY));
      SamePhase(w.table.gates, w.calls, w.holder, p, Holding(w.calls[p].phase.rest, NOBODY));
    }
  }

  lemma OrphanTree(calls: map<int, Call>, c: int, service: string)
    requires Tree(calls, service) && c in calls && calls[c].phase.Exiting?
    ensures Tree(Orphan(calls, calls[c].parent) - {c}, service)
  {
    var after := Orphan(calls, calls[c].parent) - {c};
    assert Nested(calls, c, service);
    forall d | d in after ensures Nested(after, d, service) {
      assert Nested(calls, d, service);
    }
  }

  lemma DropUser(t: Table, calls: map<int, Call>, c: int)
    requires GatesFit(t.operations, t.gates, t.created) && Joined(t.operations, calls) && Counted(t.operations, calls)
    requires c in calls && Listed(t, KeyOf(calls[c].operation))
    ensures var v := Dereferenced(t, KeyOf(calls[c].operation));
            GatesFit(v.operations, v.gates, v.created) && Joined(v.operations, calls - {c})
  {
    var key := KeyOf(calls[c].operation);
    if t.operations[key].references == 1 {
      LeftUsers(calls, c);
      LastUser(Users(calls, key), c);
      assert forall d :: d in calls && KeyOf(calls[d].operation) == key ==> d in Users(calls, key);
    }
    hide Users, Counted;
  }

  lemma DropCounted(t: Table, calls: map<int, Call>, c: int)
    requires Counted(t.operations, calls) && c in calls && Listed(t, KeyOf(calls[c].operation))
    ensures Counted(Dereferenced(t, KeyOf(calls[c].operation)).operations, calls - {c})
  {
    LeftUsers(calls, c);
    hide Users;
  }

  lemma LeftUsers(calls: map<int, Call>, c: int)
    requires c in calls
    ensures c in Users(calls, KeyOf(calls[c].operation))
    ensures Users(calls - {c}, KeyOf(calls[c].operation)) == Users(calls, KeyOf(calls[c].operation)) - {c}
    ensures forall k :: k != KeyOf(calls[c].operation) ==> Users(calls - {c}, k) == Users(calls, k)
  {
  }

  lemma LastUser(users: set<int>, c: int)
    requires |users| == 1 && c in users
    ensures users == {c}
  {
    assert |users - {c}| == 0;
  }

  lemma DropHeld(t: Table, calls: map<int, Call>, holder: map<nat, int>, c: int)
    requires Held(t.gates, calls, holder) && c in calls && calls[c].phase.Exiting? && Listed(t, KeyOf(calls[c].operation))
    ensures Held(Dereferenced(t, KeyOf(calls[c].operation)).gates, calls - {c}, holder)
  {
  }

  lemma {:induction false} Always(events: seq<Event>, service: string)
    ensures Inv(Run(events, service), service)
  {
    if events != [] {
      var w, e := Run(events[..|events| - 1], service), events[|events| - 1];
      Always(events[..|events| - 1], service);
      hide Inv, Next;
      if e.Start? || e.Nest? { BeginKeeps(w, e, service); }
      else if e.Exit? { ExitKeeps(w, e.call, service); }
      else { PhaseKeeps(w, e, service); }
    }
  }

  // ---- What the lock table is for

  /** At most one call runs under a key, in every interleaving and whatever was cancelled. */
  lemma {:induction false} MutualExclusion(events: seq<Event>, service: string, c: int, d: int)
    requires var w := Run(events, service); c in w.calls && d in w.calls
    requires var w := Run(events, service); KeyOf(w.calls[c].operation) == KeyOf(w.calls[d].operation)
    ensures var w := Run(events, service);
            w.calls[c].gate == w.calls[d].gate && (w.calls[c].phase.Holding? && w.calls[d].phase.Holding? ==> c == d)
  {
    Always(events, service);
    hide Run, Tree, Counted;
  }

  /** The string that each operation names. */
  function Subject(o: Operation): string {
    match o
    case AsUser(id) => id
    case Deactivate(id) => id
    case Invitation(id, _) => "invitations:" + id
    case OwnerConversation(owner, _, _) => "owner-conversation:" + owner
    case RoomTask(id, _) => "room:" + id
    case AgentTask(id, _) => "room:agent:" + id
    case RegistrationTask(id, _) => "room:registration:" + id
  }

  /**
   * Calls wait for each other exactly when they name the same string; so an account is never opened or registered
   * while it is deactivated, and no two operations of one room, owner or agent run at once.
   */
  lemma {:induction false} StringsExclude(events: seq<Event>, service: string, c: int, d: int)
    requires var w := Run(events, service); c in w.calls && d in w.calls
    requires var w := Run(events, service); Formed(KeyOf(w.calls[c].operation)) && Formed(KeyOf(w.calls[d].operation))
    ensures var w := Run(events, service); var o, q := w.calls[c].operation, w.calls[d].operation;
            && (w.calls[c].gate == w.calls[d].gate <==> Subject(o) == Subject(q))
            && (Subject(o) == Subject(q) && w.calls[c].phase.Holding? && w.calls[d].phase.Holding? ==> c == d)
  {
    Always(events, service);
    var w := Run(events, service);
    var o, q := w.calls[c].operation, w.calls[d].operation;
    assert Subject(o) == Text(KeyOf(o)) && Subject(q) == Text(KeyOf(q));
    hide Run, Tree, Counted, Held, Subject, Text, KeyOf;
    if Text(KeyOf(o)) == Text(KeyOf(q)) {
      TextsDiffer(KeyOf(o), KeyOf(q));
      MutualExclusion(events, service, c, d);
    }
  }

  lemma AUser(calls: map<int, Call>, k: Key) returns (c: int)
    requires Users(calls, k) != {}
    ensures c in calls && KeyOf(calls[c].operation) == k
  {
    SomeMember(Users(calls, k));
    c :| c in Users(calls, k);
  }

  /** A key is listed exactly while calls use it, counts them, and its semaphore lives exactly as long. */
  lemma {:induction false} ReferencesExact(events: seq<Event>, service: string)
    ensures var w := Run(events, service);
            && (forall k :: k in w.table.operations <==> Users(w.calls, k) != {})
            && (forall k :: k in w.table.operations ==> w.table.operations[k].references == |Users(w.calls, k)|)
            && (forall c :: c in w.calls ==> w.calls[c].gate in w.table.gates && !w.table.gates[w.calls[c].gate].disposed)
            && (forall g :: g in w.table.gates && !w.table.gates[g].disposed ==>
                  exists c :: c in w.calls && w.calls[c].gate == g && KeyOf(w.calls[c].operation) == w.table.gates[g].key)
  {
    Always(events, service);
    hide Run, Tree, Held;
    var w := Run(events, service);
    forall k ensures k in w.table.operations <==> Users(w.calls, k) != {} {
      if Users(w.calls, k) != {} {
        var c := AUser(w.calls, k);
      }
    }
    forall g | g in w.table.gates && !w.table.gates[g].disposed
      ensures exists c :: c in w.calls && w.calls[c].gate == g && KeyOf(w.calls[c].operation) == w.table.gates[g].key
    {
      var k := w.table.gates[g].key;
      assert k in w.table.operations;
      var c := AUser(w.calls, k);
      assert c in w.calls && w.calls[c].gate == g;
    }
  }

  /** What a call waits for: the holder of its semaphore, or the nested call it awaits. */
  function Awaits(w: World, c: int): int
    requires c in w.calls
  {
    var call := w.calls[c];
    if call.phase.Waiting? && call.gate in w.holder then w.holder[call.gate]
    else if call.phase.Holding? then call.phase.child
    else NOBODY
  }

  /** The chain of waits from a call never returns to where it was and ends at a call that can take a step. */
  ghost function Front(w: World, c: int, service: string): (r: int)
    requires Inv(w, service) && c in w.calls
    ensures r in w.calls && Awaits(w, r) == NOBODY
    ensures Rank(KeyOf(w.calls[r].operation), service) >= Rank(KeyOf(w.calls[c].operation), service)
    decreases 4 - Rank(KeyOf(w.calls[c].operation), service), if w.calls[c].phase.Waiting? then 1 else 0
  {
    var d := Awaits(w, c);
    if d == NOBODY then c
    else
      assert Nested(w.calls, c, service);
      if w.calls[c].phase.Waiting? then
        assert w.calls[d].gate == w.calls[c].gate && w.calls[d].phase.Holding?;
        assert KeyOf(w.calls[d].operation) == KeyOf(w.calls[c].operation);
        Front(w, d, service)
      else Front(w, d, service)
  }

  /** A call that awaits nobody changes the world by its own next step. */
  predicate CanStep(w: World, c: int, service: string)
    requires c in w.calls
  {
    match w.calls[c].phase
    case Waiting => Next(w, Acquire(c), service) != w
    case Holding(_, _) => Next(w, Finish(c), service) != w
    case Exiting => Next(w, Exit(c), service) != w
  }

  /** No deadlock: whatever any call waits for, at the front of its chain there is a call that can go on. */
  lemma {:induction false} NoDeadlock(events: seq<Event>, service: string, c: int)
    requires c in Run(events, service).calls
    ensures Inv(Run(events, service), service)
    ensures CanStep(Run(events, service), Front(Run(events, service), c, service), service)
  {
    Always(events, service);
    var w := Run(events, service);
    var r := Front(w, c, service);
    hide Run, Front;
    CanMove(w, r, service);
  }

  lemma CanMove(w: World, r: int, service: string)
    requires Inv(w, service) && r in w.calls && Awaits(w, r) == NOBODY
    ensures CanStep(w, r, service)
  {
    forall c | c in w.calls ensures c != NOBODY {
      assert Nested(w.calls, c, service);
    }
    hide Tree, Body, Users, Rank, Allowed, Next, KeyOf;
    assert w.calls[r].gate in w.table.gates;
    match w.calls[r].phase
    case Waiting => AcquireMoves(w, r, service);
    case Holding(_, _) => FinishMoves(w, r, service);
    case Exiting => ExitMoves(w, r, service);
  }

  lemma AcquireMoves(w: World, r: int, service: string)
    requires r in w.calls && w.calls[r].phase.Waiting? && w.calls[r].gate in w.table.gates && w.table.gates[w.calls[r].gate].free
    ensures Next(w, Acquire(r), service) != w
  {
    hide Body;
    assert !Next(w, Acquire(r), service).table.gates[w.calls[r].gate].free;
  }

  lemma FinishMoves(w: World, r: int, service: string)
    requires Idle(w, r) && w.calls[r].gate in w.table.gates
    ensures Next(w, Finish(r), service) != w
  {
    assert Next(w, Finish(r), service).calls[r].phase.Exiting?;
  }

  lemma ExitMoves(w: World, r: int, service: string)
    requires r in w.calls && w.calls[r].phase.Exiting? && Listed(w.table, KeyOf(w.calls[r].operation))
    ensures Next(w, Exit(r), service) != w
  {
    hide Dereferenced, Orphan;
    assert r !in Next(w, Exit(r), service).calls;
  }
}

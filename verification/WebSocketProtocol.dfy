/**
 * WebSocketProtocol.cs: concurrent requests, server decisions, failure and a draining shutdown behind one
 * lock. Table holds the fields the lock protects; each of its functions is one locked section. The World
 * around it holds the callers, the decision answers, the peer and the shutdown, and moves by atomic steps.
 */
module WebSocketProtocol {
  import opened Prelude

  const MAXIMUM_PENDING := 64
  const MAXIMUM_DECISIONS := 16
  const MAXIMUM_SEQUENCE := 9007199254740991

  /** pending maps an issued id to whether its frame was marked as sent. */
  datatype Table = Table(pending: map<nat, bool>, decisions: map<string, nat>, sequence: nat, operations: nat,
                         failed: bool, drained: bool)

  const EMPTY := Table(map[], map[], 0, 0, false, false)

  function Entered(t: Table): Table {
    if t.failed then t else t.(operations := t.operations + 1)
  }

  function Left(t: Table): Table
    requires t.operations > 0
  {
    t.(operations := t.operations - 1, drained := t.drained || (t.operations == 1 && t.failed))
  }

  predicate HasCapacity(t: Table) {
    |t.pending| < MAXIMUM_PENDING && t.sequence < MAXIMUM_SEQUENCE && !t.failed
  }

  function Issued(t: Table): Table {
    if HasCapacity(t) then t.(sequence := t.sequence + 1, pending := t.pending[t.sequence + 1 := false]) else t
  }

  function Marked(t: Table, id: nat): Table {
    if id in t.pending then t.(pending := t.pending[id := true]) else t
  }

  function Withdrawn(t: Table, id: nat): Table {
    t.(pending := t.pending - {id})
  }

  function Failed(t: Table): Table {
    if t.failed then t else t.(failed := true, pending := map[])
  }

  /** The fields under the lock. Each method is one locked section of the source. */
  class Protocol {
    var pending: map<nat, bool>
    var decisions: map<string, nat>
    var sequence: nat
    var operations: nat
    var failed: bool
    var drained: bool

    constructor ()
      ensures View() == EMPTY
    {
      pending, decisions, sequence, operations, failed, drained := map[], map[], 0, 0, false, false;
    }

    ghost function View(): Table
      reads this
    {
      Table(pending, decisions, sequence, operations, failed, drained)
    }

    method Enter() returns (ok: bool)
      modifies this
      ensures View() == old(Entered(View())) && ok == !old(failed)
    {
      if failed {
        return false;
      }
      operations := operations + 1;
      return true;
    }

    method Leave()
      requires operations > 0
      modifies this
      ensures View() == old(Left(View()))
    {
      operations := operations - 1;
      if operations == 0 && failed {
        drained := true;
      }
    }

    method Register() returns (id: Option<nat>)
      modifies this
      ensures View() == old(Issued(View()))
      ensures id == if old(HasCapacity(View())) then Some(sequence) else None
    {
      if |pending| >= MAXIMUM_PENDING || sequence >= MAXIMUM_SEQUENCE || failed {
        return None;
      }
      sequence := sequence + 1;
      pending := pending[sequence := false];
      return Some(sequence);
    }

    method MarkSent(id: nat)
      modifies this
      ensures View() == old(Marked(View(), id))
    {
      if id in pending {
        pending := pending[id := true];
      }
    }

    /** After a cancellation: a request that was never marked is withdrawn, a marked one stays. */
    method Cancelled(id: nat, sent: bool) returns (removed: bool)
      modifies this
      ensures View() == old(if sent then View() else Withdrawn(View(), id))
      ensures removed == (!sent && id in old(pending))
    {
      removed := !sent && id in pending;
      if removed {
        pending := pending - {id};
      } else if !sent {
        assert pending - {id} == pending;
      }
    }

    method Receive(id: nat) returns (expected: bool)
      modifies this
      ensures View() == old(Withdrawn(View(), id)) && expected == (id in old(pending))
    {
      expected := id in pending;
      pending := pending - {id};
    }

    /** The requests whose responses the caller must cancel. */
    method Fail() returns (requests: set<nat>)
      modifies this
      ensures View() == old(Failed(View())) && requests == if old(failed) then {} else old(pending.Keys)
    {
      if failed {
        return {};
      }
      failed := true;
      requests := pending.Keys;
      pending := map[];
    }

    method AddDecision(key: string, answer: nat) returns (ok: bool)
      modifies this
      ensures ok == (|old(decisions)| < MAXIMUM_DECISIONS && key !in old(decisions))
      ensures View() == old(View()).(decisions := if ok then old(decisions)[key := answer] else old(decisions))
    {
      ok := |decisions| < MAXIMUM_DECISIONS && key !in decisions;
      if ok {
        decisions := decisions[key := answer];
      }
    }

    method RemoveDecision(key: string)
      modifies this
      ensures View() == old(View()).(decisions := old(decisions) - {key})
    {
      decisions := decisions - {key};
    }
  }

  // ---- The world around the table

  /** Where a caller of Request stands between Enter and Leave. */
  datatype Phase = Admitted | Queued(id: nat) | Sending(id: nat) | Awaiting(id: nat) | Leaving

  /** Where the answer to a server decision stands; Removed has left the table but not yet finished. */
  datatype Answering = Deciding(key: string) | Writing(key: string) | Removing(key: string) | Removed

  datatype Writer = Free | ByCaller(caller: nat) | ByAnswer(answer: nat)

  datatype Closing = Open | Failing | Waiting(awaited: set<nat>, drain: bool) | Disposed

  datatype World = World(
    table: Table,
    callers: map<nat, Phase>,
    issuedTo: map<nat, nat>,     // which caller an id was issued to; kept only for the proofs
    answers: map<nat, Answering>,
    writer: Writer,
    stopped: bool,               // the lifetime token is cancelled, after the failure was recorded
    reading: bool,
    wire: set<nat>,              // ids whose frames the peer has received
    answered: set<nat>,          // ids the peer has answered, each at most once
    outcomes: multiset<nat>,     // completions of response promises
    unexpected: bool,            // "Unexpected native response identity" raised before any failure
    closing: Closing)

  const BEGIN := World(EMPTY, map[], map[], map[], Free, false, true, {}, {}, multiset{}, false, Open)

  datatype Event =
    | Enter(caller: nat)
    | Register(caller: nat)
    | CancelQueued(caller: nat)                     // cancelled before the frame was marked as sent
    | Oversized(caller: nat)                        // the frame exceeds its bound
    | MarkSent(caller: nat)
    | Transmit(caller: nat)
    | TransmitFails(caller: nat, delivered: bool)   // the socket breaks, or the lifetime ends, during the write
    | CancelAwaiting(caller: nat)
    | Observe(caller: nat)                          // the response promise is completed
    | Leave(caller: nat)
    | Reply(id: nat)
    | Ask(answer: nat, key: string)
    | Write(answer: nat)
    | Written(answer: nat)
    | Abandon(answer: nat)                          // cancelled, or failed without writing
    | Remove(answer: nat)
    | Finish(answer: nat)
    | Break                                         // any Fail: deadline, invalid frame, disconnection, disposal
    | Stop
    | EndReading
    | BeginClose
    | AwaitUsers
    | Dispose

  function InPhase(w: World, caller: nat): Phase {
    if caller in w.callers then w.callers[caller] else Leaving
  }

  function Fails(w: World): World {
    if w.table.failed then w
    else w.(table := Failed(w.table), outcomes := w.outcomes + multiset(w.table.pending.Keys))
  }

  function Release(w: World): World {
    w.(writer := Free)
  }

  function Holding(w: World): set<nat> {
    set a | a in w.answers && !w.answers[a].Removed?
  }

  /** Request and Exchange on behalf of one caller, up to the write. */
  function QueueStep(w: World, e: Event): World {
    match e
    case Enter(c) => if c in w.callers || w.table.failed then w else w.(table := Entered(w.table), callers := w.callers[c := Admitted])
    case Register(c) =>
      if InPhase(w, c) != Admitted then w
      else if HasCapacity(w.table) then
        var id := w.table.sequence + 1;
        w.(table := Issued(w.table), callers := w.callers[c := Queued(id)], issuedTo := w.issuedTo[id := c])
      else w.(callers := w.callers[c := Leaving])
    case CancelQueued(c) =>
      if !InPhase(w, c).Queued? then w
      else w.(table := Withdrawn(w.table, w.callers[c].id), callers := w.callers[c := Leaving])
    case Oversized(c) => if !InPhase(w, c).Queued? then w else Fails(w.(callers := w.callers[c := Leaving]))
    case _ => w
  }

  /** Send, the wait for the response, and Leave. */
  function SendStep(w: World, e: Event): World {
    match e
    case MarkSent(c) =>
      if !InPhase(w, c).Queued? || w.stopped || !w.writer.Free? then w
      else w.(table := Marked(w.table, w.callers[c].id), callers := w.callers[c := Sending(w.callers[c].id)], writer := ByCaller(c))
    case Transmit(c) =>
      if !InPhase(w, c).Sending? then w
      else Release(w).(wire := w.wire + {w.callers[c].id}, callers := w.callers[c := Awaiting(w.callers[c].id)])
    case TransmitFails(c, delivered) =>
      if !InPhase(w, c).Sending? then w
      else
        var w1 := Release(w).(wire := w.wire + (if delivered then {w.callers[c].id} else {}), callers := w.callers[c := Leaving]);
        if w.stopped then w1 else Fails(w1)
    case CancelAwaiting(c) => if !InPhase(w, c).Awaiting? then w else w.(callers := w.callers[c := Leaving])
    case Observe(c) =>
      if InPhase(w, c).Awaiting? && w.callers[c].id in w.outcomes then w.(callers := w.callers[c := Leaving]) else w
    case Leave(c) =>
      if c !in w.callers || w.callers[c] != Leaving || w.table.operations == 0 then w
      else w.(table := Left(w.table), callers := w.callers - {c})
    case _ => w
  }

  /** Receive on a response frame; the peer answers each id it has received at most once. */
  function ReplyStep(w: World, id: nat): World {
    if id !in w.wire || id in w.answered || !w.reading then w
    else if id in w.table.pending then
      w.(table := Withdrawn(w.table, id), answered := w.answered + {id}, outcomes := w.outcomes + multiset{id})
    else Fails(w.(answered := w.answered + {id}, unexpected := w.unexpected || !w.table.failed))
  }

  /** Receive on a decision request, and Answer. */
  function AnswerStep(w: World, e: Event): World {
    match e
    case Ask(a, key) =>
      if a in w.answers || !w.reading then w
      else if |w.table.decisions| < MAXIMUM_DECISIONS && key !in w.table.decisions then
        w.(table := w.table.(decisions := w.table.decisions[key := a]), answers := w.answers[a := Deciding(key)])
      else Fails(w)
    case Write(a) =>
      if a !in w.answers || !w.answers[a].Deciding? || w.stopped || !w.writer.Free? then w
      else w.(answers := w.answers[a := Writing(w.answers[a].key)], writer := ByAnswer(a))
    case Written(a) =>
      if a !in w.answers || !w.answers[a].Writing? then w
      else Release(w).(answers := w.answers[a := Removing(w.answers[a].key)])
    case Abandon(a) =>
      if a !in w.answers || !w.answers[a].Deciding? then w else w.(answers := w.answers[a := Removing(w.answers[a].key)])
    case Remove(a) =>
      if a !in w.answers || !w.answers[a].Removing? then w
      else w.(table := w.table.(decisions := w.table.decisions - {w.answers[a].key}), answers := w.answers[a := Removed])
    case Finish(a) => if a !in w.answers || !w.answers[a].Removed? then w else w.(answers := w.answers - {a})
    case _ => w
  }

  /** Failure, the end of the reader, and Close. */
  function ShutdownStep(w: World, e: Event): World {
    match e
    case Break => Fails(w)
    case Stop => if w.table.failed then w.(stopped := true) else w
    case EndReading => if w.table.failed then w.(reading := false) else w
    case BeginClose => if w.closing.Open? then Fails(w).(closing := Failing) else w
    case AwaitUsers =>
      if !w.closing.Failing? || w.reading then w else w.(closing := Waiting(Holding(w), w.table.operations != 0))
    case Dispose =>
      if w.closing.Waiting? && w.closing.awaited !! w.answers.Keys && (w.closing.drain ==> w.table.drained)
      then w.(closing := Disposed) else w
    case _ => w
  }

  predicate Queues(e: Event) {
    e.Enter? || e.Register? || e.CancelQueued? || e.Oversized?
  }

  predicate Sends(e: Event) {
    e.MarkSent? || e.Transmit? || e.TransmitFails? || e.CancelAwaiting? || e.Observe? || e.Leave?
  }

  predicate Decides(e: Event) {
    e.Ask? || e.Write? || e.Written? || e.Abandon? || e.Remove? || e.Finish?
  }

  function Next(w: World, e: Event): World {
    if Queues(e) then QueueStep(w, e)
    else if Sends(e) then SendStep(w, e)
    else if e.Reply? then ReplyStep(w, e.id)
    else if Decides(e) then AnswerStep(w, e)
    else ShutdownStep(w, e)
  }

  function Run(events: seq<Event>): World {
    if events == [] then BEGIN else Next(Run(events[..|events| - 1]), events[|events| - 1])
  }

  // ---- What every step keeps, one predicate for each group of fields

  function IdOf(p: Phase): Option<nat> {
    if p.Queued? || p.Sending? || p.Awaiting? then Some(p.id) else None
  }

  /** The ids issued so far are exactly 1 to sequence, and nothing else is pending, sent or completed. */
  ghost predicate Issuance(pending: map<nat, bool>, wire: set<nat>, outcomes: multiset<nat>, issuedTo: map<nat, nat>, sequence: nat) {
    && (forall id: nat :: id in issuedTo <==> 0 < id <= sequence)
    && (forall id :: id in pending || id in wire || id in outcomes ==> id in issuedTo)
  }

  /** A caller only ever holds the id that was issued to it. */
  ghost predicate Owned(callers: map<nat, Phase>, issuedTo: map<nat, nat>) {
    forall c :: c in callers && IdOf(callers[c]).Some? ==>
      IdOf(callers[c]).value in issuedTo && issuedTo[IdOf(callers[c]).value] == c
  }

  predicate Unsent(p: Phase, wire: set<nat>) {
    p.Queued? || p.Sending? ==> p.id !in wire
  }

  ghost predicate AllUnsent(callers: map<nat, Phase>, wire: set<nat>) {
    forall c :: c in callers ==> Unsent(callers[c], wire)
  }

  predicate Registered(p: Phase, pending: map<nat, bool>) {
    p.Queued? || p.Sending? ==> p.id in pending && (p.Sending? ==> pending[p.id])
  }

  /** Until a failure the table knows every request that has not been sent yet. */
  ghost predicate AllRegistered(callers: map<nat, Phase>, pending: map<nat, bool>) {
    forall c :: c in callers ==> Registered(callers[c], pending)
  }

  /** Until a failure the table knows every request that the peer may still answer. */
  ghost predicate Awaited(pending: map<nat, bool>, wire: set<nat>, answered: set<nat>) {
    forall id :: id in wire && id !in answered ==> id in pending && pending[id]
  }

  /** No promise completes twice, and none that a caller or the peer may still use is dropped. */
  ghost predicate Outcomes(pending: map<nat, bool>, outcomes: multiset<nat>, wire: set<nat>, callers: map<nat, Phase>) {
    && (forall id :: outcomes[id] <= 1 && (id in pending ==> id !in outcomes))
    && (forall id :: id in wire ==> id in pending || id in outcomes)
    && (forall c :: c in callers && IdOf(callers[c]).Some? ==> IdOf(callers[c]).value in pending || IdOf(callers[c]).value in outcomes)
  }

  /** The write semaphore is held exactly by the one that is writing. */
  ghost predicate CallerWrites(callers: map<nat, Phase>, writer: Writer) {
    forall c :: c in callers && callers[c].Sending? <==> writer == ByCaller(c)
  }

  ghost predicate AnswerWrites(answers: map<nat, Answering>, writer: Writer) {
    forall a :: a in answers && answers[a].Writing? <==> writer == ByAnswer(a)
  }

  /** Every answer that is not done holds its own entry of the decision table. */
  ghost predicate Deciders(answers: map<nat, Answering>, decisions: map<string, nat>) {
    && |decisions| <= MAXIMUM_DECISIONS
    && (forall a :: a in answers && !answers[a].Removed? ==> answers[a].key in decisions && decisions[answers[a].key] == a)
  }

  predicate Flags(w: World) {
    && (w.stopped || !w.reading || !w.closing.Open? || w.table.drained ==> w.table.failed)
    && (w.table.failed ==> w.table.pending == map[])
    && (w.table.drained ==> w.table.operations == 0)
    && (w.closing.Waiting? || w.closing.Disposed? ==> !w.reading)
    && (w.closing.Waiting? ==> if w.closing.drain then w.table.operations > 0 || w.table.drained else w.table.operations == 0)
    && (w.closing.Disposed? ==> w.table.operations == 0)
  }

  /** What Close waits for covers every answer still in the table. */
  ghost predicate Covered(answers: map<nat, Answering>, closing: Closing) {
    && (closing.Waiting? ==> forall a :: a in answers && !answers[a].Removed? ==> a in closing.awaited)
    && (closing.Disposed? ==> forall a :: a in answers ==> answers[a].Removed?)
  }

  ghost predicate Inv(w: World) {
    && w.table.operations == |w.callers|
    && |w.table.pending| <= MAXIMUM_PENDING
    && w.answered <= w.wire && !w.unexpected
    && Issuance(w.table.pending, w.wire, w.outcomes, w.issuedTo, w.table.sequence)
    && Owned(w.callers, w.issuedTo)
    && AllUnsent(w.callers, w.wire)
    && (!w.table.failed ==> AllRegistered(w.callers, w.table.pending) && Awaited(w.table.pending, w.wire, w.answered))
    && Outcomes(w.table.pending, w.outcomes, w.wire, w.callers)
    && CallerWrites(w.callers, w.writer) && AnswerWrites(w.answers, w.writer)
    && Deciders(w.answers, w.table.decisions)
    && Flags(w)
    && Covered(w.answers, w.closing)
  }

  lemma FewerKeys<K, V>(m: map<K, V>, k: K)
    ensures |m - {k}| == if k in m then |m| - 1 else |m|
  {
    if k in m {
      assert (m - {k}).Keys + {k} == m.Keys;
    } else {
      assert m - {k} == m;
    }
  }

  lemma FailsKeeps(w: World)
    requires Inv(w)
    ensures Inv(Fails(w))
  {
    hide Owned, AllUnsent, AllRegistered, Awaited, CallerWrites, AnswerWrites, Deciders, Covered;
  }

  /** Moving one caller to a phase that holds the same id, or none. */
  lemma MoveCaller(callers: map<nat, Phase>, c: nat, p: Phase, issuedTo: map<nat, nat>, wire: set<nat>, writer: Writer)
    requires c in callers && (IdOf(p).Some? ==> IdOf(p) == IdOf(callers[c]))
    requires Owned(callers, issuedTo) && AllUnsent(callers, wire) && Unsent(p, wire)
    requires CallerWrites(callers, writer) && !p.Sending? && !callers[c].Sending?
    ensures |callers[c := p]| == |callers|
    ensures Owned(callers[c := p], issuedTo) && AllUnsent(callers[c := p], wire) && CallerWrites(callers[c := p], writer)
  {
    assert callers[c := p].Keys == callers.Keys;
  }

  lemma MoveRequest(callers: map<nat, Phase>, c: nat, p: Phase, pending: map<nat, bool>, wire: set<nat>, outcomes: multiset<nat>)
    requires c in callers && (IdOf(p).Some? ==> IdOf(p) == IdOf(callers[c]))
    requires Outcomes(pending, outcomes, wire, callers)
    ensures Outcomes(pending, outcomes, wire, callers[c := p])
    ensures AllRegistered(callers, pending) && Registered(p, pending) ==> AllRegistered(callers[c := p], pending)
  {
  }

  lemma RetireKeeps(w: World, c: nat)
    requires Inv(w) && c in w.callers && !w.callers[c].Sending?
    ensures Inv(w.(callers := w.callers[c := Leaving]))
  {
    hide Issuance, Owned, AllUnsent, AllRegistered, Awaited, Outcomes, CallerWrites, AnswerWrites, Deciders, Covered;
    MoveCaller(w.callers, c, Leaving, w.issuedTo, w.wire, w.writer);
    MoveRequest(w.callers, c, Leaving, w.table.pending, w.wire, w.outcomes);
  }

  lemma EnterKeeps(w: World, c: nat)
    requires Inv(w)
    ensures Inv(QueueStep(w, Enter(c)))
  {
    hide Issuance, Awaited, AnswerWrites, Deciders, Covered;
  }

  lemma RegisterKeeps(w: World, c: nat)
    requires Inv(w)
    ensures Inv(QueueStep(w, Register(c)))
  {
    hide Issuance, Owned, AllUnsent, AllRegistered, Awaited, Outcomes, CallerWrites, AnswerWrites, Deciders, Covered;
    if InPhase(w, c) == Admitted {
      if HasCapacity(w.table) {
        RegisterOwned(w.callers, w.issuedTo, w.table.sequence, c, w.table.pending, w.wire, w.outcomes, w.writer);
        RegisterPending(w.callers, w.issuedTo, w.table.sequence, c, w.table.pending, w.wire, w.outcomes, w.answered);
      } else {
        RetireKeeps(w, c);
      }
    }
  }

  lemma RegisterOwned(callers: map<nat, Phase>, issuedTo: map<nat, nat>, sequence: nat, c: nat, pending: map<nat, bool>,
                      wire: set<nat>, outcomes: multiset<nat>, writer: Writer)
    requires Issuance(pending, wire, outcomes, issuedTo, sequence) && Owned(callers, issuedTo) && AllUnsent(callers, wire)
    requires c in callers && !callers[c].Sending? && CallerWrites(callers, writer)
    ensures Owned(callers[c := Queued(sequence + 1)], issuedTo[sequence + 1 := c])
    ensures AllUnsent(callers[c := Queued(sequence + 1)], wire)
    ensures Issuance(pending[sequence + 1 := false], wire, outcomes, issuedTo[sequence + 1 := c], sequence + 1)
    ensures CallerWrites(callers[c := Queued(sequence + 1)], writer)
    ensures |callers[c := Queued(sequence + 1)]| == |callers|
  {
    assert callers[c := Queued(sequence + 1)].Keys == callers.Keys;
  }

  lemma RegisterPending(callers: map<nat, Phase>, issuedTo: map<nat, nat>, sequence: nat, c: nat, pending: map<nat, bool>,
                        wire: set<nat>, outcomes: multiset<nat>, answered: set<nat>)
    requires Issuance(pending, wire, outcomes, issuedTo, sequence)
    ensures AllRegistered(callers, pending) ==> AllRegistered(callers[c := Queued(sequence + 1)], pending[sequence + 1 := false])
    ensures Awaited(pending, wire, answered) ==> Awaited(pending[sequence + 1 := false], wire, answered)
    ensures Outcomes(pending, outcomes, wire, callers) ==>
              Outcomes(pending[sequence + 1 := false], outcomes, wire, callers[c := Queued(sequence + 1)])
  {
    assert sequence + 1 !in pending && sequence + 1 !in wire && sequence + 1 !in outcomes;
  }

  /** A request cancelled before it was marked as sent leaves the table, and takes no other request with it. */
  lemma CancelQueuedKeeps(w: World, c: nat)
    requires Inv(w)
    ensures Inv(QueueStep(w, CancelQueued(c)))
  {
    hide Issuance, Owned, AllUnsent, AllRegistered, Awaited, Outcomes, CallerWrites, AnswerWrites, Deciders, Covered;
    if InPhase(w, c).Queued? {
      var id := w.callers[c].id;
      FewerKeys(w.table.pending, id);
      MoveCaller(w.callers, c, Leaving, w.issuedTo, w.wire, w.writer);
      WithdrawQueued(w.callers, w.issuedTo, c, w.table.pending, w.wire, w.outcomes, w.answered);
      WithdrawIssuance(w.table.pending, w.wire, w.outcomes, w.issuedTo, w.table.sequence, id);
    }
  }

  lemma WithdrawIssuance(pending: map<nat, bool>, wire: set<nat>, outcomes: multiset<nat>, issuedTo: map<nat, nat>, sequence: nat, id: nat)
    requires Issuance(pending, wire, outcomes, issuedTo, sequence)
    ensures Issuance(pending - {id}, wire, outcomes, issuedTo, sequence)
    ensures pending == map[] ==> pending - {id} == map[]
  {
  }

  lemma WithdrawQueued(callers: map<nat, Phase>, issuedTo: map<nat, nat>, c: nat, pending: map<nat, bool>, wire: set<nat>,
                       outcomes: multiset<nat>, answered: set<nat>)
    requires c in callers && callers[c].Queued? && Owned(callers, issuedTo) && AllUnsent(callers, wire)
    ensures AllRegistered(callers, pending) ==> AllRegistered(callers[c := Leaving], pending - {callers[c].id})
    ensures Awaited(pending, wire, answered) ==> Awaited(pending - {callers[c].id}, wire, answered)
    ensures Outcomes(pending, outcomes, wire, callers) ==>
              Outcomes(pending - {callers[c].id}, outcomes, wire, callers[c := Leaving])
  {
    assert Unsent(callers[c], wire);
    assert forall d :: d in callers && d != c && IdOf(callers[d]).Some? ==> IdOf(callers[d]).value != callers[c].id;
    assert AllRegistered(callers, pending) ==> forall d :: d in callers ==> Registered(callers[d], pending);
  }

  lemma QueueKeeps(w: World, e: Event)
    requires Inv(w) && Queues(e)
    ensures Inv(QueueStep(w, e))
  {
    if e.Register? {
      RegisterKeeps(w, e.caller);
    } else if e.CancelQueued? {
      CancelQueuedKeeps(w, e.caller);
    } else if e.Enter? {
      EnterKeeps(w, e.caller);
    } else {
      hide Inv;
      if InPhase(w, e.caller).Queued? {
        RetireKeeps(w, e.caller);
        FailsKeeps(w.(callers := w.callers[e.caller := Leaving]));
      }
    }
  }

  lemma MarkSentKeeps(w: World, c: nat)
    requires Inv(w)
    ensures Inv(SendStep(w, MarkSent(c)))
  {
    hide Issuance, Owned, AllUnsent, AllRegistered, Awaited, Outcomes, CallerWrites, AnswerWrites, Deciders, Covered;
    if InPhase(w, c).Queued? && !w.stopped && w.writer.Free? {
      MarkCaller(w, c);
      MarkPending(w.callers, c, w.table.pending, w.wire, w.answered, w.outcomes);
    }
  }

  lemma MarkCaller(w: World, c: nat)
    requires Inv(w) && c in w.callers && w.callers[c].Queued? && w.writer.Free?
    ensures var callers := w.callers[c := Sending(w.callers[c].id)];
            |callers| == |w.callers| && Owned(callers, w.issuedTo) && AllUnsent(callers, w.wire) && CallerWrites(callers, ByCaller(c))
    ensures AnswerWrites(w.answers, ByCaller(c))
    ensures Issuance(Marked(w.table, w.callers[c].id).pending, w.wire, w.outcomes, w.issuedTo, w.table.sequence)
  {
    hide Awaited, AllRegistered, Outcomes, Deciders, Covered;
    assert w.callers[c := Sending(w.callers[c].id)].Keys == w.callers.Keys;
    assert Unsent(w.callers[c], w.wire);
  }

  lemma MarkPending(callers: map<nat, Phase>, c: nat, pending: map<nat, bool>, wire: set<nat>, answered: set<nat>, outcomes: multiset<nat>)
    requires c in callers && callers[c].Queued?
    ensures var id := callers[c].id; var marked := if id in pending then pending[id := true] else pending;
            && |marked| == |pending|
            && (AllRegistered(callers, pending) ==> AllRegistered(callers[c := Sending(id)], marked))
            && (Awaited(pending, wire, answered) ==> Awaited(marked, wire, answered))
            && (Outcomes(pending, outcomes, wire, callers) ==> Outcomes(marked, outcomes, wire, callers[c := Sending(id)]))
  {
    var id := callers[c].id;
    if id in pending {
      assert pending[id := true].Keys == pending.Keys;
    } else {
      assert AllRegistered(callers, pending) ==> Registered(callers[c], pending);
    }
  }

  /** The write ends: the request is on the wire, or was refused by a broken socket. */
  lemma WriteEnds(w: World, c: nat, delivered: bool, p: Phase)
    requires Inv(w) && c in w.callers && w.callers[c].Sending? && (p == Leaving || p == Awaiting(w.callers[c].id))
    ensures Inv(Release(w).(wire := w.wire + (if delivered then {w.callers[c].id} else {}), callers := w.callers[c := p]))
  {
    hide Issuance, Owned, AllUnsent, AllRegistered, Awaited, Outcomes, CallerWrites, AnswerWrites, Deciders, Covered;
    WriteEndsCaller(w.callers, c, delivered, p, w.issuedTo, w.wire, w.writer, w.answers);
    WriteEndsRequest(w.callers, c, delivered, p, w.issuedTo, w.wire, w.table.sequence, w.table.pending, w.answered, w.outcomes);
  }

  lemma WriteEndsCaller(callers: map<nat, Phase>, c: nat, delivered: bool, p: Phase, issuedTo: map<nat, nat>, wire: set<nat>,
                        writer: Writer, answers: map<nat, Answering>)
    requires c in callers && callers[c].Sending? && (p == Leaving || p == Awaiting(callers[c].id))
    requires Owned(callers, issuedTo) && AllUnsent(callers, wire) && CallerWrites(callers, writer) && AnswerWrites(answers, writer)
    ensures |callers[c := p]| == |callers| && Owned(callers[c := p], issuedTo) && CallerWrites(callers[c := p], Free)
    ensures AllUnsent(callers[c := p], wire + (if delivered then {callers[c].id} else {})) && AnswerWrites(answers, Free)
  {
    assert callers[c := p].Keys == callers.Keys;
    assert forall d :: d in callers && d != c && IdOf(callers[d]).Some? ==> IdOf(callers[d]).value != callers[c].id;
    assert forall d :: d in callers ==> Unsent(callers[d], wire);
  }

  lemma WriteEndsRequest(callers: map<nat, Phase>, c: nat, delivered: bool, p: Phase, issuedTo: map<nat, nat>, wire: set<nat>,
                         sequence: nat, pending: map<nat, bool>, answered: set<nat>, outcomes: multiset<nat>)
    requires c in callers && callers[c].Sending? && (p == Leaving || p == Awaiting(callers[c].id)) && Owned(callers, issuedTo)
    requires Issuance(pending, wire, outcomes, issuedTo, sequence) && Outcomes(pending, outcomes, wire, callers)
    ensures var after := wire + (if delivered then {callers[c].id} else {});
            && Issuance(pending, after, outcomes, issuedTo, sequence)
            && Outcomes(pending, outcomes, after, callers[c := p])
            && (AllRegistered(callers, pending) ==> AllRegistered(callers[c := p], pending))
            && (AllRegistered(callers, pending) && Awaited(pending, wire, answered) ==> Awaited(pending, after, answered))
  {
    assert AllRegistered(callers, pending) ==> Registered(callers[c], pending);
  }

  lemma TransmitFailsKeeps(w: World, c: nat, delivered: bool)
    requires Inv(w)
    ensures Inv(SendStep(w, TransmitFails(c, delivered)))
  {
    hide Inv, Fails;
    if InPhase(w, c).Sending? {
      WriteEnds(w, c, delivered, Leaving);
      FailsKeeps(Release(w).(wire := w.wire + (if delivered then {w.callers[c].id} else {}), callers := w.callers[c := Leaving]));
    }
  }

  lemma LeaveKeeps(w: World, c: nat)
    requires Inv(w)
    ensures Inv(SendStep(w, Leave(c)))
  {
    hide Issuance, Owned, AllUnsent, AllRegistered, Awaited, Outcomes, CallerWrites, AnswerWrites, Deciders, Covered;
    if c in w.callers && w.callers[c] == Leaving {
      FewerKeys(w.callers, c);
      DropCaller(w.callers, c, w.issuedTo, w.wire, w.writer, w.table.pending, w.outcomes);
    }
  }

  lemma DropCaller(callers: map<nat, Phase>, c: nat, issuedTo: map<nat, nat>, wire: set<nat>, writer: Writer,
                   pending: map<nat, bool>, outcomes: multiset<nat>)
    requires Owned(callers, issuedTo) && AllUnsent(callers, wire) && CallerWrites(callers, writer)
    requires Outcomes(pending, outcomes, wire, callers) && c in callers && callers[c] == Leaving
    ensures Owned(callers - {c}, issuedTo) && AllUnsent(callers - {c}, wire) && CallerWrites(callers - {c}, writer)
    ensures Outcomes(pending, outcomes, wire, callers - {c})
    ensures AllRegistered(callers, pending) ==> AllRegistered(callers - {c}, pending)
  {
  }

  lemma TransmitKeeps(w: World, c: nat)
    requires Inv(w)
    ensures Inv(SendStep(w, Transmit(c)))
  {
    hide Inv;
    if InPhase(w, c).Sending? {
      WriteEnds(w, c, true, Awaiting(w.callers[c].id));
    }
  }

  lemma SendKeeps(w: World, e: Event)
    requires Inv(w) && Sends(e)
    ensures Inv(SendStep(w, e))
  {
    hide Inv;
    if e.MarkSent? {
      MarkSentKeeps(w, e.caller);
    } else if e.Leave? {
      LeaveKeeps(w, e.caller);
    } else if e.Transmit? {
      TransmitKeeps(w, e.caller);
    } else if e.TransmitFails? {
      TransmitFailsKeeps(w, e.caller, e.delivered);
    } else if InPhase(w, e.caller).Awaiting? {
      RetireKeeps(w, e.caller);
    }
  }

  /** A reply is expected: its id was sent and not answered, so unless there was a failure it is pending. */
  lemma ReplyKeeps(w: World, id: nat)
    requires Inv(w)
    ensures Inv(ReplyStep(w, id))
  {
    hide Issuance, Owned, AllUnsent, AllRegistered, Awaited, Outcomes, CallerWrites, AnswerWrites, Deciders, Covered;
    if id in w.wire && id !in w.answered && w.reading {
      ReplyExpected(w.callers, id, w.table.pending, w.wire, w.answered, w.outcomes);
      if id in w.table.pending {
        FewerKeys(w.table.pending, id);
        ReplyIssuance(w.table.pending, w.wire, w.outcomes, w.issuedTo, w.table.sequence, id);
      }
    }
  }

  lemma ReplyIssuance(pending: map<nat, bool>, wire: set<nat>, outcomes: multiset<nat>, issuedTo: map<nat, nat>, sequence: nat, id: nat)
    requires Issuance(pending, wire, outcomes, issuedTo, sequence) && id in pending
    ensures Issuance(pending - {id}, wire, outcomes + multiset{id}, issuedTo, sequence)
  {
  }

  lemma ReplyExpected(callers: map<nat, Phase>, id: nat, pending: map<nat, bool>, wire: set<nat>, answered: set<nat>, outcomes: multiset<nat>)
    requires id in wire && id !in answered && AllUnsent(callers, wire) && Outcomes(pending, outcomes, wire, callers)
    ensures Awaited(pending, wire, answered) ==> id in pending && Awaited(pending - {id}, wire, answered + {id})
    ensures AllRegistered(callers, pending) ==> AllRegistered(callers, pending - {id})
    ensures id in pending ==> Outcomes(pending - {id}, outcomes + multiset{id}, wire, callers)
  {
    assert forall d :: d in callers ==> Unsent(callers[d], wire);
    assert AllRegistered(callers, pending) ==> forall d :: d in callers ==> Registered(callers[d], pending);
  }

  lemma AskKeeps(w: World, a: nat, key: string)
    requires Inv(w)
    ensures Inv(AnswerStep(w, Ask(a, key)))
  {
    hide Issuance, Owned, AllUnsent, AllRegistered, Awaited, Outcomes, CallerWrites, AnswerWrites, Deciders, Covered;
    hide Fails;
    if a !in w.answers && w.reading && |w.table.decisions| < MAXIMUM_DECISIONS && key !in w.table.decisions {
      NewDecider(w.answers, a, key, w.table.decisions, w.writer, w.closing);
    } else {
      FailsKeeps(w);
    }
  }

  lemma NewDecider(answers: map<nat, Answering>, a: nat, key: string, decisions: map<string, nat>, writer: Writer, closing: Closing)
    requires Deciders(answers, decisions) && Covered(answers, closing) && AnswerWrites(answers, writer)
    requires a !in answers && key !in decisions && |decisions| < MAXIMUM_DECISIONS && !closing.Waiting? && !closing.Disposed?
    ensures Deciders(answers[a := Deciding(key)], decisions[key := a])
    ensures Covered(answers[a := Deciding(key)], closing) && AnswerWrites(answers[a := Deciding(key)], writer)
  {
  }

  lemma MoveAnswer(answers: map<nat, Answering>, a: nat, q: Answering, decisions: map<string, nat>, closing: Closing)
    requires a in answers && !answers[a].Removed? && !q.Removed? && q.key == answers[a].key
    requires Deciders(answers, decisions) && Covered(answers, closing)
    ensures Deciders(answers[a := q], decisions) && Covered(answers[a := q], closing)
  {
  }

  lemma MoveWriter(w: World, a: nat, q: Answering, writer: Writer)
    requires CallerWrites(w.callers, w.writer) && AnswerWrites(w.answers, w.writer) && a in w.answers
    requires (w.writer == Free && q.Writing? && writer == ByAnswer(a)) || (w.answers[a].Writing? && !q.Writing? && writer == Free)
    ensures CallerWrites(w.callers, writer) && AnswerWrites(w.answers[a := q], writer)
  {
  }

  lemma RemoveDecided(answers: map<nat, Answering>, a: nat, decisions: map<string, nat>, closing: Closing)
    requires a in answers && !answers[a].Removed? && Deciders(answers, decisions) && Covered(answers, closing)
    ensures Deciders(answers[a := Removed], decisions - {answers[a].key}) && Covered(answers[a := Removed], closing)
  {
    FewerKeys(decisions, answers[a].key);
  }

  lemma WriteKeeps(w: World, e: Event)
    requires Inv(w) && (e.Write? || e.Written?)
    ensures Inv(AnswerStep(w, e))
  {
    hide Issuance, Owned, AllUnsent, AllRegistered, Awaited, Outcomes, CallerWrites, AnswerWrites, Deciders, Covered;
    var a := e.answer;
    if e.Write? && a in w.answers && w.answers[a].Deciding? && w.writer.Free? {
      MoveAnswer(w.answers, a, Writing(w.answers[a].key), w.table.decisions, w.closing);
      MoveWriter(w, a, Writing(w.answers[a].key), ByAnswer(a));
    } else if e.Written? && a in w.answers && w.answers[a].Writing? {
      MoveAnswer(w.answers, a, Removing(w.answers[a].key), w.table.decisions, w.closing);
      MoveWriter(w, a, Removing(w.answers[a].key), Free);
    }
  }

  lemma EndAnswerKeeps(w: World, e: Event)
    requires Inv(w) && (e.Abandon? || e.Remove? || e.Finish?)
    ensures Inv(AnswerStep(w, e))
  {
    hide Issuance, Owned, AllUnsent, AllRegistered, Awaited, Outcomes, CallerWrites, AnswerWrites, Deciders, Covered;
    var a := e.answer;
    if e.Abandon? && a in w.answers && w.answers[a].Deciding? {
      MoveAnswer(w.answers, a, Removing(w.answers[a].key), w.table.decisions, w.closing);
      QuietAnswer(w.answers, a, Removing(w.answers[a].key), w.writer);
    } else if e.Remove? && a in w.answers && w.answers[a].Removing? {
      RemoveDecided(w.answers, a, w.table.decisions, w.closing);
      QuietAnswer(w.answers, a, Removed, w.writer);
    } else if e.Finish? && a in w.answers && w.answers[a].Removed? {
      FinishedAnswer(w.answers, a, w.table.decisions, w.closing);
      QuietAnswer(w.answers, a, Removed, w.writer);
    }
  }

  lemma AnswerKeeps(w: World, e: Event)
    requires Inv(w) && Decides(e)
    ensures Inv(AnswerStep(w, e))
  {
    hide Inv, AnswerStep;
    if e.Ask? {
      AskKeeps(w, e.answer, e.key);
    } else if e.Write? || e.Written? {
      WriteKeeps(w, e);
    } else {
      EndAnswerKeeps(w, e);
    }
  }

  lemma QuietAnswer(answers: map<nat, Answering>, a: nat, q: Answering, writer: Writer)
    requires AnswerWrites(answers, writer) && a in answers && !answers[a].Writing? && !q.Writing?
    ensures AnswerWrites(answers - {a}, writer) && AnswerWrites(answers[a := q], writer)
  {
  }

  lemma FinishedAnswer(answers: map<nat, Answering>, a: nat, decisions: map<string, nat>, closing: Closing)
    requires Deciders(answers, decisions) && Covered(answers, closing)
    ensures Deciders(answers - {a}, decisions) && Covered(answers - {a}, closing)
  {
  }

  lemma ShutdownKeeps(w: World, e: Event)
    requires Inv(w) && !Queues(e) && !Sends(e) && !e.Reply? && !Decides(e)
    ensures Inv(ShutdownStep(w, e))
  {
    hide Issuance, Owned, AllUnsent, AllRegistered, Awaited, Outcomes, CallerWrites, AnswerWrites, Deciders, Covered;
    if e.Break? || e.BeginClose? {
      hide Fails;
      FailsKeeps(w);
      StartsClosing(w.answers, w.closing);
    } else {
      ClosingCovers(w);
    }
  }

  lemma StartsClosing(answers: map<nat, Answering>, closing: Closing)
    requires Covered(answers, closing)
    ensures Covered(answers, Failing)
  {
  }

  lemma ClosingCovers(w: World)
    requires Covered(w.answers, w.closing)
    ensures forall drain :: Covered(w.answers, Waiting(Holding(w), drain))
    ensures w.closing.Waiting? && w.closing.awaited !! w.answers.Keys ==> Covered(w.answers, Disposed)
  {
  }

  lemma {:induction false} Always(events: seq<Event>)
    ensures Inv(Run(events))
  {
    if events != [] {
      var w, e := Run(events[..|events| - 1]), events[|events| - 1];
      Always(events[..|events| - 1]);
      hide Inv, QueueStep, SendStep, ReplyStep, AnswerStep, ShutdownStep;
      if Queues(e) { QueueKeeps(w, e); }
      else if Sends(e) { SendKeeps(w, e); }
      else if e.Reply? { ReplyKeeps(w, e.id); }
      else if Decides(e) { AnswerKeeps(w, e); }
      else { ShutdownKeeps(w, e); }
    }
  }

  // ---- What the protocol is for

  /** Against a peer that answers each request it received at most once, no reply is ever unexpected. */
  lemma {:induction false} NeverUnexpected(events: seq<Event>)
    ensures !Run(events).unexpected
    ensures var w := Run(events); forall id :: !w.table.failed && id in w.wire && id !in w.answered ==> id in w.table.pending
    ensures |Run(events).table.pending| <= MAXIMUM_PENDING
  {
    Always(events);
    hide Run;
  }

  /** One outcome per request, and one for every request the peer or a waiting caller may still care about. */
  lemma {:induction false} OneOutcome(events: seq<Event>, id: nat)
    ensures var w := Run(events); w.outcomes[id] <= 1
    ensures var w := Run(events); id in w.wire ==> if id in w.table.pending then w.outcomes[id] == 0 else w.outcomes[id] == 1
    ensures var w := Run(events); w.table.failed && id in w.wire ==> w.outcomes[id] == 1
  {
    Always(events);
    hide Run;
  }

  ghost predicate IdsKept(w: World, v: World) {
    v.table.sequence == w.table.sequence && v.issuedTo == w.issuedTo
  }

  ghost predicate Final(w: World, v: World) {
    w.table.failed ==>
      && v.table.failed && v.table.operations <= w.table.operations && v.callers.Keys <= w.callers.Keys
      && (w.closing.Disposed? ==> v.closing.Disposed?)
  }

  lemma QueueApart(w: World, e: Event)
    ensures (e.Register? && !w.table.failed) || IdsKept(w, QueueStep(w, e))
    ensures Final(w, QueueStep(w, e))
  {
  }

  lemma SendApart(w: World, e: Event)
    requires Sends(e)
    ensures IdsKept(w, SendStep(w, e)) && Final(w, SendStep(w, e))
  {
  }

  lemma ReplyApart(w: World, id: nat)
    ensures IdsKept(w, ReplyStep(w, id)) && Final(w, ReplyStep(w, id))
  {
  }

  lemma WriteApart(w: World, e: Event)
    requires e.Write? || e.Written? || e.Abandon?
    ensures IdsKept(w, AnswerStep(w, e)) && Final(w, AnswerStep(w, e))
  {
  }

  lemma AnswerApart(w: World, e: Event)
    requires Decides(e)
    ensures IdsKept(w, AnswerStep(w, e)) && Final(w, AnswerStep(w, e))
  {
    if e.Write? || e.Written? || e.Abandon? {
      hide AnswerStep;
      WriteApart(w, e);
    }
  }

  lemma CloseApart(w: World, e: Event)
    requires e.AwaitUsers? || e.Dispose?
    ensures IdsKept(w, ShutdownStep(w, e)) && Final(w, ShutdownStep(w, e))
  {
    hide Holding, Fails;
  }

  lemma ShutdownApart(w: World, e: Event)
    requires !Queues(e) && !Sends(e) && !e.Reply? && !Decides(e)
    ensures IdsKept(w, ShutdownStep(w, e)) && Final(w, ShutdownStep(w, e))
  {
    if e.AwaitUsers? || e.Dispose? {
      hide ShutdownStep;
      CloseApart(w, e);
    } else {
      hide Holding;
    }
  }

  lemma NextApart(w: World, e: Event)
    ensures (e.Register? && !w.table.failed) || IdsKept(w, Next(w, e))
    ensures Final(w, Next(w, e))
  {
    hide QueueStep, SendStep, ReplyStep, AnswerStep, ShutdownStep, IdsKept, Final;
    if Queues(e) { QueueApart(w, e); }
    else if Sends(e) { SendApart(w, e); }
    else if e.Reply? { ReplyApart(w, e.id); }
    else if Decides(e) { AnswerApart(w, e); }
    else { ShutdownApart(w, e); }
  }

  /** The ids handed out are 1, 2, 3 and so on: the step that issues one issues the next, to a caller that keeps it. */
  lemma {:induction false} IdsIncrease(events: seq<Event>, e: Event)
    ensures var w, v := Run(events), Next(Run(events), e);
            && (forall id: nat :: id in w.issuedTo <==> 0 < id <= w.table.sequence)
            && w.table.sequence <= v.table.sequence <= w.table.sequence + 1
            && (forall id :: id in w.issuedTo ==> id in v.issuedTo && v.issuedTo[id] == w.issuedTo[id])
  {
    Always(events);
    var w := Run(events);
    hide Run, Outcomes, Owned, AllUnsent, AllRegistered, Awaited, CallerWrites, AnswerWrites, Deciders, Covered, Flags;
    NextApart(w, e);
    assert w.table.sequence + 1 !in w.issuedTo;
    if !e.Register? { hide Next; }
  }

  /** After a failure nothing becomes pending, no id is issued, no operation enters and the count only falls. */
  lemma {:induction false} FailureIsFinal(events: seq<Event>, more: seq<Event>)
    requires Run(events).table.failed
    ensures Final(Run(events), Run(events + more)) && IdsKept(Run(events), Run(events + more))
    ensures Run(events + more).table.pending == map[]
  {
    if more == [] {
      assert events + more == events;
      Always(events);
      hide Next;
    } else {
      var before := events + more[..|more| - 1];
      FailureIsFinal(events, more[..|more| - 1]);
      assert (events + more)[..|events + more| - 1] == before;
      Always(events + more);
      assert Run(events + more) == Next(Run(before), more[|more| - 1]);
      hide Run, Next;
      NextApart(Run(before), more[|more| - 1]);
    }
  }

  /** Close releases the socket, the write semaphore and the stop source only when nothing can use them again. */
  lemma {:induction false} CloseWaits(events: seq<Event>, more: seq<Event>)
    requires Run(events).closing.Disposed?
    ensures var v := Run(events + more);
            && v.closing.Disposed? && v.table.operations == 0 && v.callers == map[] && v.writer == Free && !v.reading
            && forall a :: a in v.answers ==> v.answers[a].Removed?
  {
    Always(events);
    FailureIsFinal(events, more);
    Always(events + more);
    hide Run, Issuance, Outcomes, Owned, AllUnsent, AllRegistered, Awaited, Deciders;
    var v := Run(events + more);
    assert forall c :: v.writer != ByCaller(c);
    assert forall a :: v.writer != ByAnswer(a);
  }

  /** Close never waits for a signal that cannot come: once its users are gone it can dispose. */
  lemma {:induction false} CloseEnds(events: seq<Event>)
    requires var w := Run(events); w.closing.Waiting? && w.callers == map[] && w.closing.awaited !! w.answers.Keys
    ensures Next(Run(events), Dispose).closing.Disposed?
  {
    Always(events);
    hide Run;
  }
}

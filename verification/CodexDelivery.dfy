/**
 * CodexConnection.cs, CodexInput.cs, NativeDelivery.cs and NativeJournal.cs: publishing a message to the
 * native runtime, checking for its receipt and resuming it after a restart. Every durable or external
 * action is an Effect; a crash keeps a prefix of the effects and forgets the volatile fields.
 */
module CodexDelivery {
  import opened Prelude
  import opened CodexTimeline

  datatype CodexInput = CodexInput(original: Publication, resumption: Option<Publication>)

  /** The publication a check looks for. */
  function Published(x: CodexInput): Publication {
    if x.resumption.Some? then x.resumption.value else x.original
  }

  /** The digest is a hash of the text, taken to be injective. */
  datatype Digest = Sha256(text: string)
  datatype Confirmation = Confirmation(messageId: string, digest: Digest)
  datatype Journal = Journal(pending: Option<CodexInput>, confirmed: seq<Confirmation>)
  datatype ThreadState = Idle | Active | NotLoaded
  datatype NativeReceipt = Received | Pending | Interrupted | Waiting
  datatype DeliveryFault =
    | SearchFault(fault: Fault) | StateFault | CaptureFault | SaveFault | StartFault | Uncertain | NotRetained | NotRecorded

  datatype Effect =
    | Looked(publication: Publication, answer: Result<Evidence, Fault>)
    | SawState(state: ThreadState)
    | Saved(input: CodexInput)
    | Started(publication: Publication, resumption: bool)
    | Completed(received: bool)
    | Acknowledged(messageIds: set<string>)

  const MAXIMUM_CONFIRMED := 128
  const RESUME_PREFIX := "crossfire-resume-"

  // ---- The journal

  function Ids(confirmed: seq<Confirmation>): set<string> {
    set c | c in confirmed :: c.messageId
  }

  predicate SameMessage(x: CodexInput, y: CodexInput) {
    x.original.messageId == y.original.messageId && x.original.text == y.original.text
  }

  predicate MayPrepare(j: Journal, x: CodexInput) {
    && (j.pending.Some? ==> SameMessage(j.pending.value, x))
    && |j.confirmed| < MAXIMUM_CONFIRMED && x.original.messageId !in Ids(j.confirmed)
  }

  function Confirm(j: Journal, received: bool): seq<Confirmation>
    requires j.pending.Some?
  {
    var o := j.pending.value.original;
    if received && o.messageId !in Ids(j.confirmed) then j.confirmed + [Confirmation(o.messageId, Sha256(o.text))] else j.confirmed
  }

  function Without(confirmed: seq<Confirmation>, ids: set<string>): seq<Confirmation> {
    if confirmed == [] then []
    else if confirmed[0].messageId in ids then Without(confirmed[1..], ids)
    else [confirmed[0]] + Without(confirmed[1..], ids)
  }

  function After(j: Journal, e: Effect): Journal {
    match e
    case Saved(x) => j.(pending := Some(x))
    case Completed(received) => if j.pending.None? then j else Journal(None, Confirm(j, received))
    case Acknowledged(ids) => j.(confirmed := Without(j.confirmed, ids))
    case _ => j
  }

  /** The journal on disk is determined by the effects that reached it. */
  function JournalOf(log: seq<Effect>): Journal {
    if log == [] then Journal(None, []) else After(JournalOf(log[..|log| - 1]), log[|log| - 1])
  }

  lemma JournalSnoc(log: seq<Effect>, e: Effect)
    ensures JournalOf(log + [e]) == After(JournalOf(log), e)
  {
    assert (log + [e])[..|log|] == log;
  }

  class NativeJournal {
    var state: Journal
    ghost var log: seq<Effect>

    ghost predicate Valid()
      reads this
    {
      state == JournalOf(log)
    }

    constructor ()
      ensures Valid() && log == []
    {
      state, log := Journal(None, []), [];
    }

    /** Reopening after a restart: what the file holds is what the kept effects left there. */
    constructor Reopen(ghost kept: seq<Effect>, stored: Journal)
      requires stored == JournalOf(kept)
      ensures Valid() && log == kept
    {
      state, log := stored, kept;
    }

    /** An external action or observation; it leaves the journal file alone. */
    method Note(e: Effect)
      requires Valid() && (e.Looked? || e.SawState? || e.Started?)
      modifies this
      ensures Valid() && log == old(log) + [e] && state == old(state)
    {
      JournalSnoc(log, e);
      log := log + [e];
    }

    /** written is whether validation and the file write succeed. */
    method Prepare(input: CodexInput, written: bool) returns (ok: bool)
      requires Valid()
      modifies this
      ensures Valid() && ok == (MayPrepare(old(state), input) && written)
      ensures log == old(log) + (if ok then [Saved(input)] else [])
      ensures state == if ok then old(state).(pending := Some(input)) else old(state)
    {
      if state.pending.Some? && (state.pending.value.original.messageId != input.original.messageId || state.pending.value.original.text != input.original.text) {
        return false;
      }
      if |state.confirmed| >= MAXIMUM_CONFIRMED || (exists c | c in state.confirmed :: c.messageId == input.original.messageId) {
        return false;
      }
      if !written {
        return false;
      }
      JournalSnoc(log, Saved(input));
      state := state.(pending := Some(input));
      log := log + [Saved(input)];
      return true;
    }

    method Complete(input: CodexInput, received: bool, written: bool) returns (ok: bool)
      requires Valid()
      modifies this
      ensures Valid() && ok == (old(state).pending.Some? && SameMessage(old(state).pending.value, input) && written)
      ensures log == old(log) + (if ok then [Completed(received)] else [])
      ensures state == if ok then Journal(None, Confirm(old(state), received)) else old(state)
    {
      if state.pending.None? || !SameMessage(state.pending.value, input) || !written {
        return false;
      }
      var confirmed := state.confirmed;
      if received && !(exists c | c in confirmed :: c.messageId == input.original.messageId) {
        confirmed := confirmed + [Confirmation(input.original.messageId, Sha256(input.original.text))];
      }
      JournalSnoc(log, Completed(received));
      state := Journal(None, confirmed);
      log := log + [Completed(received)];
      return true;
    }
  }

  // ---- One receipt check

  datatype Volatile = Volatile(unavailable: nat, resumed: bool, retained: Option<string>)

  const FORGOTTEN := Volatile(0, false, None)

  /** What the outside world answers during one check; an identifier is drawn only by a resumption. */
  datatype Answers = Answers(receipt: Result<Evidence, Fault>, state: Option<ThreadState>,
                             captured: Option<(Option<HistoryBoundary>, bool)>, identifier: string, notice: string,
                             written: bool, turn: Option<string>, writtenTurn: bool)

  datatype Outcome = Outcome(effects: seq<Effect>, result: Result<NativeReceipt, DeliveryFault>, next: Volatile)

  function Marked(x: CodexInput, boundary: Option<HistoryBoundary>): CodexInput {
    var p := Published(x).(initializing := false, boundary := boundary);
    if x.resumption.Some? then x.(resumption := Some(p)) else x.(original := p)
  }

  function KeyOf(boundary: Option<HistoryBoundary>): Option<Key> {
    if boundary.None? then None else Some(boundary.value.key)
  }

  function Resumption(a: Answers): Publication
    requires a.captured.Some?
  {
    Publication(None, a.notice, RESUME_PREFIX + a.identifier, a.captured.value.0, a.captured.value.1)
  }

  function WithTurn(x: CodexInput, turn: Option<string>): CodexInput {
    if x.resumption.Some? then x.(resumption := Some(x.resumption.value.(turn := turn)))
    else x.(original := x.original.(turn := turn))
  }

  /** Journal a publication, submit it with turn/start, journal the acknowledged turn. */
  function SubmitOn(j: Journal, x: CodexInput, written: bool, turn: Option<string>, writtenTurn: bool)
    : (seq<Effect>, Result<NativeReceipt, DeliveryFault>)
  {
    var submission := [Saved(x), Started(Published(x), x.resumption.Some?)];
    if !(MayPrepare(j, x) && written) then ([], Failure(SaveFault))
    else if turn.None? || turn.value == "" then (submission, Failure(StartFault))
    else if !writtenTurn then (submission, Failure(SaveFault))
    else (submission + [Saved(WithTurn(x, turn))], Success(Waiting))
  }

  function Resume(j: Journal, v: Volatile, x: CodexInput, a: Answers): Outcome {
    var v1 := v.(resumed := true);
    if a.captured.None? then Outcome([], Failure(CaptureFault), v1)
    else
      var (effects, result) := SubmitOn(j, x.(resumption := Some(Resumption(a))), a.written, a.turn, a.writtenTurn);
      Outcome(effects, result, v1.(retained := Some(x.original.messageId)))
  }

  /** Not received and not resumed: move the boundary and report. */
  function Settle(j: Journal, v: Volatile, x: CodexInput, e: Evidence, a: Answers): Outcome {
    var p := Published(x);
    var moved := p.initializing || KeyOf(e.boundary) != KeyOf(p.boundary);
    if p.turn.None? then Outcome([], Failure(Uncertain), v)
    else if moved && !(MayPrepare(j, Marked(x, e.boundary)) && a.written) then Outcome([], Failure(SaveFault), v)
    else
      var kept := if moved then [Saved(Marked(x, e.boundary))] else [];
      if e.status == Unavailable then
        Outcome(kept, if v.unavailable + 1 < 3 then Success(NativeReceipt.Pending) else Failure(NotRetained),
                v.(unavailable := v.unavailable + 1))
      else
        Outcome(kept, if e.status == Status.Interrupted then Success(NativeReceipt.Interrupted)
                      else if e.status == Missing then Failure(NotRecorded) else Success(Waiting),
                v.(unavailable := 0))
  }

  /**
   * What a check that settles leaves in the journal: the publication looked for next starts from the newest
   * position the check has seen, which is how TimelineTheorems.Checks goes on.
   */
  lemma SettleMovesBoundary(j: Journal, v: Volatile, x: CodexInput, e: Evidence, a: Answers)
    requires j.pending == Some(x) && Published(x).turn.Some? && Settle(j, v, x, e, a).result != Failure(SaveFault)
    ensures var kept := JournalAfter(j, Settle(j, v, x, e, a).effects).pending;
            && kept.Some? && Published(kept.value).(boundary := None) == Published(x).(boundary := None, initializing := false)
            && KeyOf(Published(kept.value).boundary) == KeyOf(e.boundary)
            && (kept.value != x ==> Published(kept.value).boundary == e.boundary)
  {
  }

  function JournalAfter(j: Journal, effects: seq<Effect>): Journal {
    if effects == [] then j else After(JournalAfter(j, effects[..|effects| - 1]), effects[|effects| - 1])
  }

  function Then(first: Effect, rest: Outcome): Outcome {
    rest.(effects := [first] + rest.effects)
  }

  /** A restored message, or an interrupted resumption, is resumed once the thread is idle. */
  function Unreceived(j: Journal, v: Volatile, x: CodexInput, restored: bool, e: Evidence, a: Answers): Outcome {
    if !((restored && !v.resumed) || (x.resumption.Some? && e.status == Status.Interrupted)) then Settle(j, v, x, e, a)
    else if a.state.None? then Outcome([], Failure(StateFault), v)
    else Then(SawState(a.state.value), if a.state.value == Idle then Resume(j, v, x, a) else Settle(j, v, x, e, a))
  }

  function Searched(j: Journal, v: Volatile, x: CodexInput, restored: bool, a: Answers): Outcome {
    if a.receipt.Failure? then SearchFailed(v, Published(x), a.receipt.error)
    else if a.receipt.value.status == Status.Received then Outcome([], Success(NativeReceipt.Received), v)
    else Unreceived(j, v, x, restored, a.receipt.value, a)
  }

  function CheckOn(j: Journal, v: Volatile, x: CodexInput, restored: bool, a: Answers): Outcome {
    var v0 := if x.resumption.Some? then v.(retained := Some(x.original.messageId)) else v;
    Then(Looked(Published(x), a.receipt), Searched(j, v0, x, restored, a))
  }

  /** A history that does not support the method yet is asked twice more while it initializes. */
  function SearchFailed(v: Volatile, p: Publication, f: Fault): Outcome {
    if p.initializing && f == UnavailableMethod then
      Outcome([], if v.unavailable + 1 < 3 then Success(NativeReceipt.Pending) else Failure(SearchFault(f)),
              v.(unavailable := v.unavailable + 1))
    else Outcome([], Failure(SearchFault(f)), v)
  }

  function FirstInput(text: string, messageId: string, captured: (Option<HistoryBoundary>, bool)): CodexInput {
    CodexInput(Publication(None, text, messageId, captured.0, captured.1), None)
  }

  /** A first delivery of a message. */
  function DeliverOn(j: Journal, v: Volatile, text: string, messageId: string, captured: Option<(Option<HistoryBoundary>, bool)>,
                     written: bool, turn: Option<string>, writtenTurn: bool): Outcome {
    var v1 := v.(unavailable := 0);
    if captured.None? then Outcome([], Failure(CaptureFault), v1)
    else
      var (effects, result) := SubmitOn(j, FirstInput(text, messageId, captured.value), written, turn, writtenTurn);
      Outcome(effects, result, v1)
  }

  class CodexConnection {
    var unavailable: nat
    var resumed: bool
    var retained: Option<string>
    const journal: NativeJournal

    constructor (journal: NativeJournal)
      ensures this.journal == journal && Fields() == FORGOTTEN
    {
      this.journal := journal;
      unavailable, resumed, retained := 0, false, None;
    }

    ghost function Fields(): Volatile
      reads this
    {
      Volatile(unavailable, resumed, retained)
    }

    /** NativeDelivery.Deliver with nothing pending: Prepare, journal.Prepare, Publish. */
    method Deliver(text: string, messageId: string, captured: Option<(Option<HistoryBoundary>, bool)>,
                   written: bool, turn: Option<string>, writtenTurn: bool) returns (r: Result<NativeReceipt, DeliveryFault>)
      requires journal.Valid() && journal.state.pending.None?
      modifies this, journal
      ensures journal.Valid()
      ensures var o := old(DeliverOn(journal.state, Fields(), text, messageId, captured, written, turn, writtenTurn));
              r == o.result && Fields() == o.next && journal.log == old(journal.log) + o.effects
    {
      hide JournalOf, SubmitOn;
      unavailable := 0;
      if captured.None? {
        return Failure(CaptureFault);
      }
      r := Submit(FirstInput(text, messageId, captured.value), written, turn, writtenTurn);
    }

    method Submit(input: CodexInput, written: bool, turn: Option<string>, writtenTurn: bool)
      returns (r: Result<NativeReceipt, DeliveryFault>)
      requires journal.Valid()
      modifies journal
      ensures journal.Valid()
      ensures var (effects, result) := old(SubmitOn(journal.state, input, written, turn, writtenTurn));
              r == result && journal.log == old(journal.log) + effects
    {
      hide JournalOf;
      var saved := journal.Prepare(input, written);
      if !saved {
        return Failure(SaveFault);
      }
      journal.Note(Started(Published(input), input.resumption.Some?));
      if turn.None? || turn.value == "" {
        return Failure(StartFault);
      }
      saved := journal.Prepare(WithTurn(input, turn), writtenTurn);
      return if saved then Success(Waiting) else Failure(SaveFault);
    }

    method Received(input: CodexInput, restored: bool, a: Answers) returns (r: Result<NativeReceipt, DeliveryFault>)
      requires journal.Valid() && journal.state.pending == Some(input)
      modifies this, journal
      ensures journal.Valid()
      ensures var o := old(CheckOn(journal.state, Fields(), input, restored, a));
              r == o.result && Fields() == o.next && journal.log == old(journal.log) + o.effects
    {
      hide JournalOf, Searched;
      if input.resumption.Some? && retained != Some(input.original.messageId) {
        retained := Some(input.original.messageId);
      }
      journal.Note(Looked(Published(input), a.receipt));
      r := Answered(input, restored, a);
    }

    method Answered(input: CodexInput, restored: bool, a: Answers) returns (r: Result<NativeReceipt, DeliveryFault>)
      requires journal.Valid() && journal.state.pending == Some(input)
      modifies this, journal
      ensures journal.Valid()
      ensures var o := old(Searched(journal.state, Fields(), input, restored, a));
              r == o.result && Fields() == o.next && journal.log == old(journal.log) + o.effects
    {
      hide JournalOf, Unreceived;
      if a.receipt.Failure? {
        r := Unsearched(Published(input), a.receipt.error);
      } else if a.receipt.value.status == Status.Received {
        r := Success(NativeReceipt.Received);
      } else {
        r := ResumeOrSettle(input, restored, a.receipt.value, a);
      }
    }

    method Unsearched(published: Publication, error: Fault) returns (r: Result<NativeReceipt, DeliveryFault>)
      modifies this
      ensures var o := SearchFailed(old(Fields()), published, error); r == o.result && Fields() == o.next
    {
      if published.initializing && error == UnavailableMethod {
        unavailable := unavailable + 1;
        if unavailable < 3 {
          return Success(NativeReceipt.Pending);
        }
      }
      return Failure(SearchFault(error));
    }

    method ResumeOrSettle(input: CodexInput, restored: bool, evidence: Evidence, a: Answers)
      returns (r: Result<NativeReceipt, DeliveryFault>)
      requires journal.Valid() && journal.state.pending == Some(input)
      modifies this, journal
      ensures journal.Valid()
      ensures var o := old(Unreceived(journal.state, Fields(), input, restored, evidence, a));
              r == o.result && Fields() == o.next && journal.log == old(journal.log) + o.effects
    {
      hide JournalOf, Resume, Settle;
      if (restored && !resumed) || (input.resumption.Some? && evidence.status == Status.Interrupted) {
        if a.state.None? {
          return Failure(StateFault);
        }
        journal.Note(SawState(a.state.value));
        if a.state.value == Idle {
          r := StartResumption(input, a);
          return;
        }
      }
      r := SettleReceipt(input, evidence, a);
    }

    method SettleReceipt(input: CodexInput, evidence: Evidence, a: Answers) returns (r: Result<NativeReceipt, DeliveryFault>)
      requires journal.Valid()
      modifies this, journal
      ensures journal.Valid()
      ensures var o := old(Settle(journal.state, Fields(), input, evidence, a));
              r == o.result && Fields() == o.next && journal.log == old(journal.log) + o.effects
    {
      hide JournalOf;
      var published := Published(input);
      if published.turn.None? {
        return Failure(Uncertain);
      }
      if published.initializing || KeyOf(evidence.boundary) != KeyOf(published.boundary) {
        var saved := journal.Prepare(Marked(input, evidence.boundary), a.written);
        if !saved {
          return Failure(SaveFault);
        }
      }
      if evidence.status == Unavailable {
        unavailable := unavailable + 1;
        return if unavailable < 3 then Success(NativeReceipt.Pending) else Failure(NotRetained);
      }
      unavailable := 0;
      return if evidence.status == Status.Interrupted then Success(NativeReceipt.Interrupted)
             else if evidence.status == Missing then Failure(NotRecorded) else Success(Waiting);
    }

    method StartResumption(input: CodexInput, a: Answers) returns (r: Result<NativeReceipt, DeliveryFault>)
      requires journal.Valid() && journal.state.pending == Some(input)
      modifies this, journal
      ensures journal.Valid()
      ensures var o := old(Resume(journal.state, Fields(), input, a));
              r == o.result && Fields() == o.next && journal.log == old(journal.log) + o.effects
    {
      hide JournalOf, SubmitOn;
      resumed := true;
      if a.captured.None? {
        return Failure(CaptureFault);
      }
      retained := Some(input.original.messageId);
      r := Submit(input.(resumption := Some(Resumption(a))), a.written, a.turn, a.writtenTurn);
    }
  }
}

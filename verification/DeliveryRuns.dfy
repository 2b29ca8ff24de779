/** Runs of the delivery protocol in which the process may crash between any two effects. */
module DeliveryRuns {
  import opened Prelude
  import opened CodexTimeline
  import opened CodexDelivery

  datatype Activation =
    | Deliver(text: string, messageId: string, captured: Option<(Option<HistoryBoundary>, bool)>,
              written: bool, turn: Option<string>, writtenTurn: bool)
    | Check(answers: Answers, completed: bool)
    | Acknowledge(messageIds: set<string>, written: bool)

  /** An activation, cut after `crash` effects when the process dies during it. */
  datatype Step = Step(activation: Activation, crash: Option<nat>)

  datatype Run = Run(log: seq<Effect>, v: Volatile, restored: Option<string>, drawn: set<string>)

  const BEGIN := Run([], FORGOTTEN, None, {})

  /** One iteration of NativeDelivery.SettlePending. */
  function SettleOn(j: Journal, v: Volatile, x: CodexInput, restored: bool, a: Answers, completed: bool): Outcome {
    var o := CheckOn(j, v, x, restored, a);
    if completed && o.result == Success(NativeReceipt.Received) then o.(effects := o.effects + [Completed(true)])
    else if completed && o.result == Success(NativeReceipt.Interrupted) then o.(effects := o.effects + [Completed(false)])
    else o
  }

  function Act(r: Run, act: Activation): (Volatile, seq<Effect>) {
    var j := JournalOf(r.log);
    match act
    case Deliver(text, id, captured, written, turn, writtenTurn) =>
      if j.pending.Some? || id in Ids(j.confirmed) then (r.v, [])
      else var o := DeliverOn(j, r.v, text, id, captured, written, turn, writtenTurn); (o.next, o.effects)
    case Check(a, completed) =>
      if j.pending.None? then (r.v, [])
      else
        var x := j.pending.value;
        var o := SettleOn(j, r.v, x, r.restored == Some(x.original.messageId), a, completed);
        (o.next, o.effects)
    case Acknowledge(ids, written) => (r.v, if written then [Acknowledged(ids)] else [])
  }

  function Drawn(act: Activation): set<string> {
    if act.Check? then {act.answers.identifier} else {}
  }

  function PendingId(j: Journal): Option<string> {
    if j.pending.None? then None else Some(j.pending.value.original.messageId)
  }

  function Advance(r: Run, step: Step): Run {
    var (v, effects) := Act(r, step.activation);
    var drawn := r.drawn + Drawn(step.activation);
    if step.crash.None? then Run(r.log + effects, v, r.restored, drawn)
    else
      var log := r.log + effects[..if step.crash.value < |effects| then step.crash.value else |effects|];
      Run(log, FORGOTTEN, PendingId(JournalOf(log)), drawn)
  }

  /** Identifiers drawn by the checks of a run are fresh. */
  predicate Fresh(steps: seq<Step>) {
    steps == [] ||
    var n := |steps| - 1;
    Fresh(steps[..n]) && RunOf(steps[..n]).drawn !! Drawn(steps[n].activation)
  }

  function RunOf(steps: seq<Step>): Run {
    if steps == [] then BEGIN else Advance(RunOf(steps[..|steps| - 1]), steps[|steps| - 1])
  }

  // ---- What justifies each effect, from the effects before it alone

  function StatusFor(received: bool): Status {
    if received then Status.Received else Status.Interrupted
  }

  /**
   * The look at k was for the publication then pending, found this status, and belongs to the check still under
   * way, since every check begins with its look.
   */
  predicate FoundAt(h: seq<Effect>, k: nat, status: Status)
    requires k < |h|
  {
    && JournalOf(h[..k]).pending.Some? && h[k].Looked? && h[k].publication == Published(JournalOf(h[..k]).pending.value)
    && h[k].answer.Success? && h[k].answer.value.status == status
    && forall m :: k < m < |h| ==> h[m].SawState? || h[m].Saved?
  }

  predicate Found(h: seq<Effect>, status: Status) {
    exists k: nat :: k < |h| && FoundAt(h, k, status)
  }

  lemma FoundSince(log: seq<Effect>, look: Effect, more: seq<Effect>)
    requires JournalOf(log).pending.Some? && look.Looked? && look.publication == Published(JournalOf(log).pending.value)
    requires look.answer.Success? && forall e :: e in more ==> e.SawState? || e.Saved?
    ensures Found(log + [look] + more, look.answer.value.status)
  {
    var h := log + [look] + more;
    assert h[..|log|] == log && h[|log|] == look;
    forall m | |log| < m < |h| ensures h[m].SawState? || h[m].Saved? {
      assert h[m] == more[m - |log| - 1];
    }
    hide JournalOf;
    assert FoundAt(h, |log|, look.answer.value.status);
  }

  function ResumptionIds(log: seq<Effect>): set<string> {
    set e | e in log && e.Started? && e.resumption :: e.publication.messageId
  }

  /** A look at the pending publication that did not find it. */
  predicate LookedInVain(h: seq<Effect>, e: Effect) {
    && JournalOf(h).pending.Some? && e.Looked? && e.publication == Published(JournalOf(h).pending.value)
    && e.answer.Success? && e.answer.value.status != Status.Received
  }

  predicate Justified(h: seq<Effect>, e: Effect) {
    var n := |h|;
    var pending := JournalOf(h).pending;
    match e
    case Saved(x) => MayPrepare(JournalOf(h), x) && (pending.None? ==> x.resumption.None? && x.original.turn.None?)
    case Started(p, true) =>
      && n >= 3 && h[n - 1].Saved? && h[n - 1].input.resumption == Some(p) && h[n - 2] == SawState(Idle)
      && LookedInVain(h[..n - 3], h[n - 3]) && p.messageId !in ResumptionIds(h)
    case Started(p, false) => n >= 1 && h[n - 1] == Saved(CodexInput(p, None)) && JournalOf(h[..n - 1]).pending.None?
    case Completed(received) =>
      pending.Some? && Found(h, StatusFor(received))
    case _ => true
  }

  predicate Good(log: seq<Effect>) {
    log == [] || var n := |log| - 1; Good(log[..n]) && Justified(log[..n], log[n])
  }

  lemma GoodSnoc(log: seq<Effect>, e: Effect)
    requires Good(log) && Justified(log, e)
    ensures Good(log + [e])
  {
    assert (log + [e])[..|log|] == log;
  }

  lemma {:induction false} GoodPrefix(log: seq<Effect>, n: nat)
    requires Good(log) && n <= |log|
    ensures Good(log[..n])
  {
    if n < |log| {
      GoodPrefix(log[..|log| - 1], n);
      assert log[..|log| - 1][..n] == log[..n];
    } else {
      assert log[..n] == log;
    }
  }

  lemma {:induction false} GoodAt(log: seq<Effect>, i: nat)
    requires Good(log) && i < |log|
    ensures Justified(log[..i], log[i])
  {
    GoodPrefix(log, i + 1);
    assert log[..i + 1][..i] == log[..i];
  }

  // ---- Every activation is justified step by step

  /** Extends a justified log by one effect and says what the journal then is. */
  lemma Extend(log: seq<Effect>, e: Effect) returns (longer: seq<Effect>)
    requires Good(log) && Justified(log, e)
    ensures longer == log + [e] && Good(longer) && longer[..|log|] == log
    ensures JournalOf(longer) == After(JournalOf(log), e)
  {
    longer := log + [e];
    assert longer[..|log|] == log;
  }

  lemma SavedThenStarted(log: seq<Effect>, x: CodexInput)
    requires JournalOf(log).pending.None? && x.resumption.None?
    ensures Justified(log + [Saved(x)], Started(x.original, false))
  {
    assert (log + [Saved(x)])[..|log|] == log;
    assert x == CodexInput(x.original, None);
  }

  /** A submission is justified once its save and its start are. */
  lemma SubmitGood(log: seq<Effect>, x: CodexInput, written: bool, turn: Option<string>, writtenTurn: bool)
    requires Good(log) && (MayPrepare(JournalOf(log), x) ==> Justified(log, Saved(x)))
    requires Justified(log + [Saved(x)], Started(Published(x), x.resumption.Some?))
    ensures Good(log + SubmitOn(JournalOf(log), x, written, turn, writtenTurn).0)
  {
    hide JournalOf, Good;
    var effects := SubmitOn(JournalOf(log), x, written, turn, writtenTurn).0;
    if effects == [] {
      assert log + effects == log;
    } else {
      var log1 := Extend(log, Saved(x));
      var log2 := Extend(log1, Started(Published(x), x.resumption.Some?));
      assert log2 == log + effects[..2];
      if |effects| == 3 {
        var log3 := Extend(log2, Saved(WithTurn(x, turn)));
        assert log3 == log + effects;
      } else {
        assert log2 == log + effects;
      }
    }
  }

  lemma DeliverGood(log: seq<Effect>, v: Volatile, text: string, id: string, captured: Option<(Option<HistoryBoundary>, bool)>,
                    written: bool, turn: Option<string>, writtenTurn: bool)
    requires Good(log) && JournalOf(log).pending.None?
    ensures Good(log + DeliverOn(JournalOf(log), v, text, id, captured, written, turn, writtenTurn).effects)
  {
    hide JournalOf, Good, SubmitOn;
    if captured.None? {
      assert log + [] == log;
    } else {
      var x := FirstInput(text, id, captured.value);
      SavedThenStarted(log, x);
      SubmitGood(log, x, written, turn, writtenTurn);
    }
  }

  lemma ResumptionJustified(h: seq<Effect>, look: Effect, named: CodexInput)
    requires LookedInVain(h, look) && named.resumption.Some?
    requires named.resumption.value.messageId !in ResumptionIds(h)
    ensures Justified(h + [look] + [SawState(Idle)] + [Saved(named)], Started(named.resumption.value, true))
  {
    var log := h + [look] + [SawState(Idle)] + [Saved(named)];
    assert log[..|log| - 3] == h;
    forall id | id in ResumptionIds(log)
      ensures id in ResumptionIds(h)
    {
      var e :| e in log && e.Started? && e.resumption && e.publication.messageId == id;
      assert e in h;
    }
  }

  /** The saves and the submission of a resumption, after a vain look and an idle thread. */
  lemma ResumeGood(h: seq<Effect>, look: Effect, v: Volatile, x: CodexInput, a: Answers)
    requires JournalOf(h).pending == Some(x) && LookedInVain(h, look)
    requires Good(h + [look] + [SawState(Idle)]) && RESUME_PREFIX + a.identifier !in ResumptionIds(h)
    ensures var o := Resume(JournalOf(h), v, x, a);
            && Good(h + [look] + [SawState(Idle)] + o.effects)
            && o.result != Success(NativeReceipt.Received) && o.result != Success(NativeReceipt.Interrupted)
  {
    hide Good;
    var log := h + [look] + [SawState(Idle)];
    JournalSnoc(h, look);
    JournalSnoc(h + [look], SawState(Idle));
    if a.captured.None? {
      assert log + [] == log;
    } else {
      var named := x.(resumption := Some(Resumption(a)));
      ResumptionJustified(h, look, named);
      SubmitGood(log, named, a.written, a.turn, a.writtenTurn);
    }
  }

  lemma SettleGood(log: seq<Effect>, v: Volatile, x: CodexInput, e: Evidence, a: Answers)
    requires Good(log) && JournalOf(log).pending == Some(x)
    ensures var o := Settle(JournalOf(log), v, x, e, a);
            && Good(log + o.effects) && JournalOf(log + o.effects).pending.Some?
            && (forall e :: e in o.effects ==> e.Saved?)
            && (o.result == Success(NativeReceipt.Interrupted) ==> e.status == Status.Interrupted)
            && o.result != Success(NativeReceipt.Received)
  {
    var effects := Settle(JournalOf(log), v, x, e, a).effects;
    if effects == [] {
      assert log + effects == log;
    } else {
      assert effects == [Saved(Marked(x, e.boundary))];
      GoodSnoc(log, effects[0]);
      JournalSnoc(log, effects[0]);
      assert (log + effects)[..|log|] == log;
    }
  }

  lemma CheckGood(log: seq<Effect>, v: Volatile, x: CodexInput, restored: bool, a: Answers)
    requires Good(log) && JournalOf(log).pending == Some(x) && RESUME_PREFIX + a.identifier !in ResumptionIds(log)
    ensures var o := CheckOn(JournalOf(log), v, x, restored, a);
            && Good(log + o.effects)
            && (o.result == Success(NativeReceipt.Received) || o.result == Success(NativeReceipt.Interrupted) ==>
                  && JournalOf(log + o.effects).pending.Some?
                  && Found(log + o.effects, StatusFor(o.result.value == NativeReceipt.Received)))
  {
    hide Unreceived;
    var j := JournalOf(log);
    var v0 := if x.resumption.Some? then v.(retained := Some(x.original.messageId)) else v;
    var look := Looked(Published(x), a.receipt);
    var log1 := log + [look];
    GoodSnoc(log, look);
    JournalSnoc(log, look);
    assert log1[..|log|] == log;
    var rest := Searched(j, v0, x, restored, a);
    assert log + Then(look, rest).effects == log1 + rest.effects;
    if a.receipt.Failure? || a.receipt.value.status == Status.Received {
      assert log1 + [] == log1;
      if a.receipt.Success? { FoundSince(log, look, []); }
    } else {
      UnreceivedGood(log, look, v0, x, restored, a);
      if rest.result == Success(NativeReceipt.Interrupted) { FoundSince(log, look, rest.effects); }
    }
  }

  lemma UnreceivedGood(log: seq<Effect>, look: Effect, v: Volatile, x: CodexInput, restored: bool, a: Answers)
    requires JournalOf(log).pending == Some(x) && RESUME_PREFIX + a.identifier !in ResumptionIds(log)
    requires a.receipt.Success? && a.receipt.value.status != Status.Received
    requires look == Looked(Published(x), a.receipt) && Good(log + [look])
    ensures var o := Unreceived(JournalOf(log), v, x, restored, a.receipt.value, a);
            && Good(log + [look] + o.effects) && o.result != Success(NativeReceipt.Received)
            && (o.result == Success(NativeReceipt.Interrupted) ==>
                  && JournalOf(log + [look] + o.effects).pending.Some? && a.receipt.value.status == Status.Interrupted
                  && forall e :: e in o.effects ==> e.SawState? || e.Saved?)
  {
    hide Settle, Resume, JournalOf, Good;
    var j, e, log1 := JournalOf(log), a.receipt.value, log + [look];
    var o := Unreceived(j, v, x, restored, e, a);
    JournalSnoc(log, look);
    if !((restored && !v.resumed) || (x.resumption.Some? && e.status == Status.Interrupted)) {
      SettleGood(log1, v, x, e, a);
    } else if a.state.None? {
      assert log1 + [] == log1;
    } else {
      var seen := SawState(a.state.value);
      var log2 := Extend(log1, seen);
      if a.state.value == Idle {
        ResumeGood(log, look, v, x, a);
        assert log1 + o.effects == log2 + Resume(j, v, x, a).effects;
      } else {
        SettleGood(log2, v, x, e, a);
        assert log1 + o.effects == log2 + Settle(j, v, x, e, a).effects;
      }
    }
  }

  // ---- Identifiers that have been submitted were drawn

  predicate Covered(r: Run) {
    forall id :: id in ResumptionIds(r.log) ==> exists d :: d in r.drawn && id == RESUME_PREFIX + d
  }

  lemma FreshIdentity(r: Run, d: string)
    requires Covered(r) && d !in r.drawn
    ensures RESUME_PREFIX + d !in ResumptionIds(r.log)
  {
    forall d' | RESUME_PREFIX + d == RESUME_PREFIX + d'
      ensures d == d'
    {
      assert d == (RESUME_PREFIX + d)[|RESUME_PREFIX|..] && d' == (RESUME_PREFIX + d')[|RESUME_PREFIX|..];
    }
  }

  lemma CheckStarts(j: Journal, v: Volatile, x: CodexInput, restored: bool, a: Answers, e: Effect)
    requires e in CheckOn(j, v, x, restored, a).effects && e.Started?
    ensures e.resumption ==> e.publication.messageId == RESUME_PREFIX + a.identifier
  {
    var v0 := if x.resumption.Some? then v.(retained := Some(x.original.messageId)) else v;
    assert e in Searched(j, v0, x, restored, a).effects;
    assert a.receipt.Success? ==> forall s | s in Settle(j, v0, x, a.receipt.value, a).effects :: s.Saved?;
  }

  lemma ActStarts(r: Run, act: Activation, e: Effect)
    requires e in Act(r, act).1 && e.Started? && e.resumption
    ensures act.Check? && e.publication.messageId == RESUME_PREFIX + act.answers.identifier
  {
    var j := JournalOf(r.log);
    if act.Check? {
      var x := j.pending.value;
      CheckStarts(j, r.v, x, r.restored == Some(x.original.messageId), act.answers, e);
    }
  }

  lemma {:induction false} RunGood(steps: seq<Step>)
    requires Fresh(steps)
    ensures Good(RunOf(steps).log) && Covered(RunOf(steps))
  {
    hide Act, Justified, JournalOf;
    if steps != [] {
      var n := |steps| - 1;
      var r, step := RunOf(steps[..n]), steps[n];
      RunGood(steps[..n]);
      var (_, effects) := Act(r, step.activation);
      ActGood(r, step.activation);
      var k := if step.crash.None? then |effects| else if step.crash.value < |effects| then step.crash.value else |effects|;
      assert effects[..|effects|] == effects;
      var log := r.log + effects[..k];
      assert (r.log + effects)[..|r.log| + k] == log;
      GoodPrefix(r.log + effects, |r.log| + k);
      forall id | id in ResumptionIds(log)
        ensures exists d :: d in r.drawn + Drawn(step.activation) && id == RESUME_PREFIX + d
      {
        var e :| e in log && e.Started? && e.resumption && e.publication.messageId == id;
        if e in r.log {
          assert id in ResumptionIds(r.log);
        } else {
          ActStarts(r, step.activation, e);
        }
      }
    }
  }

  lemma ActGood(r: Run, act: Activation)
    requires Good(r.log) && Covered(r) && r.drawn !! Drawn(act)
    ensures Good(r.log + Act(r, act).1)
  {
    hide CheckOn, DeliverOn;
    var j := JournalOf(r.log);
    assert r.log + [] == r.log;
    match act
    case Deliver(text, id, captured, written, turn, writtenTurn) =>
      if j.pending.None? { DeliverGood(r.log, r.v, text, id, captured, written, turn, writtenTurn); }
    case Acknowledge(ids, written) =>
      if written { GoodSnoc(r.log, Acknowledged(ids)); }
    case Check(a, completed) =>
      if j.pending.Some? {
        var x := j.pending.value;
        var restored := r.restored == Some(x.original.messageId);
        FreshIdentity(r, a.identifier);
        CheckGood(r.log, r.v, x, restored, a);
        var o := CheckOn(j, r.v, x, restored, a);
        if completed && (o.result == Success(NativeReceipt.Received) || o.result == Success(NativeReceipt.Interrupted)) {
          var done := Completed(o.result.value == NativeReceipt.Received);
          GoodSnoc(r.log + o.effects, done);
          assert r.log + (o.effects + [done]) == (r.log + o.effects) + [done];
        }
      }
  }

  // ---- The guarantees

  /** No resumption identity is ever submitted twice, however the run crashed. */
  lemma {:induction false} ResumptionsStartedOnce(steps: seq<Step>, i: nat, j: nat)
    requires Fresh(steps) && i < j < |RunOf(steps).log|
    requires var log := RunOf(steps).log; log[i].Started? && log[i].resumption && log[j].Started? && log[j].resumption
    ensures var log := RunOf(steps).log; log[i].publication.messageId != log[j].publication.messageId
  {
    hide JournalOf, RunOf, Fresh;
    RunGood(steps);
    var log := RunOf(steps).log;
    GoodAt(log, j);
    assert log[..j][i] in log[..j];
  }

  /**
   * A resumption is submitted right after it was journaled, and only when the same check looked for the
   * journaled publication, did not find it, and saw the thread idle; it keeps the original message.
   */
  lemma {:induction false} ResumptionGuarded(steps: seq<Step>, i: nat)
    requires Fresh(steps) && i < |RunOf(steps).log|
    requires RunOf(steps).log[i].Started? && RunOf(steps).log[i].resumption
    ensures GuardedAt(RunOf(steps).log, i)
  {
    hide RunOf, Fresh;
    RunGood(steps);
    var log := RunOf(steps).log;
    GoodAt(log, i);
    var h := log[..i];
    assert h[i - 1] == log[i - 1] && h[i - 2] == log[i - 2] && h[i - 3] == log[i - 3] && h[..i - 3] == log[..i - 3];
    GoodAt(log, i - 1);
    JournalSnoc(log[..i - 3], log[i - 3]);
    JournalSnoc(log[..i - 2], log[i - 2]);
    assert log[..i - 2] == log[..i - 3] + [log[i - 3]] && log[..i - 1] == log[..i - 2] + [log[i - 2]];
  }

  predicate GuardedAt(log: seq<Effect>, i: nat)
    requires i < |log| && log[i].Started?
  {
    && i >= 3 && log[i - 1].Saved? && log[i - 1].input.resumption == Some(log[i].publication)
    && log[i - 2] == SawState(Idle) && LookedInVain(log[..i - 3], log[i - 3])
    && SameMessage(JournalOf(log[..i - 3]).pending.value, log[i - 1].input)
  }

  predicate NoCompletion(log: seq<Effect>, i: nat, j: nat)
    requires i <= j <= |log|
  {
    forall k :: i <= k < j ==> !log[k].Completed?
  }

  /** A pending message keeps its identity and text until it is completed. */
  lemma {:induction false} PendingKept(log: seq<Effect>, i: nat, j: nat)
    requires Good(log) && i <= j <= |log| && NoCompletion(log, i, j)
    requires JournalOf(log[..i]).pending.Some?
    ensures JournalOf(log[..j]).pending.Some?
    ensures SameMessage(JournalOf(log[..i]).pending.value, JournalOf(log[..j]).pending.value)
  {
    if i < j {
      PendingKept(log, i, j - 1);
      GoodAt(log, j - 1);
      assert log[..j] == log[..j - 1] + [log[j - 1]];
      JournalSnoc(log[..j - 1], log[j - 1]);
    }
  }

  lemma SavedAt(log: seq<Effect>, i: nat)
    requires Good(log) && i < |log| && log[i].Saved?
    ensures JournalOf(log[..i + 1]).pending == Some(log[i].input)
    ensures JournalOf(log[..i]).pending.Some? ==> SameMessage(JournalOf(log[..i]).pending.value, log[i].input)
  {
    GoodAt(log, i);
    hide JournalOf, Good;
    assert log[..i + 1] == log[..i] + [log[i]];
    JournalSnoc(log[..i], log[i]);
  }

  /** The journaled original text and identity never change while the message is pending. */
  lemma {:induction false} OriginalKept(steps: seq<Step>, i: nat, j: nat)
    requires Fresh(steps) && i < j < |RunOf(steps).log|
    requires var log := RunOf(steps).log; log[i].Saved? && log[j].Saved? && NoCompletion(log, i, j)
    ensures var log := RunOf(steps).log; SameMessage(log[i].input, log[j].input)
  {
    hide JournalOf, Good, RunOf, Fresh;
    RunGood(steps);
    var log := RunOf(steps).log;
    SavedAt(log, i);
    PendingKept(log, i + 1, j);
    SavedAt(log, j);
  }

  lemma StartedAt(log: seq<Effect>, i: nat)
    requires Good(log) && i < |log| && log[i].Started? && !log[i].resumption
    ensures i > 0 && log[i - 1] == Saved(CodexInput(log[i].publication, None))
    ensures JournalOf(log[..i - 1]).pending.None? && JournalOf(log[..i]).pending.Some?
  {
    GoodAt(log, i);
    assert log[..i][i - 1] == log[i - 1] && log[..i][..i - 1] == log[..i - 1];
    assert log[..i] == log[..i - 1] + [log[i - 1]];
    JournalSnoc(log[..i - 1], log[i - 1]);
  }

  /** The original message is journaled before it is submitted, and at most once until it is completed. */
  lemma {:induction false} OriginalStartedOnce(steps: seq<Step>, i: nat, j: nat)
    requires Fresh(steps) && i < j < |RunOf(steps).log|
    requires var log := RunOf(steps).log; log[i].Started? && !log[i].resumption && log[j].Started? && !log[j].resumption
    ensures var log := RunOf(steps).log; i > 0 && log[i - 1] == Saved(CodexInput(log[i].publication, None))
    ensures !NoCompletion(RunOf(steps).log, i, j)
  {
    hide JournalOf, RunOf, Fresh;
    RunGood(steps);
    NotStartedAgain(RunOf(steps).log, i, j);
  }

  lemma NotStartedAgain(log: seq<Effect>, i: nat, j: nat)
    requires Good(log) && i < j < |log|
    requires log[i].Started? && !log[i].resumption && log[j].Started? && !log[j].resumption
    ensures i > 0 && log[i - 1] == Saved(CodexInput(log[i].publication, None))
    ensures !NoCompletion(log, i, j)
  {
    hide JournalOf, Good;
    StartedAt(log, i);
    StartedAt(log, j);
    if NoCompletion(log, i, j) {
      PendingKept(log, i, j - 1);
    }
  }

  /**
   * A message leaves the journal only by a check that looked for the publication then pending and found it, or
   * found it interrupted; the message has stayed the same since that look.
   */
  lemma {:induction false} CompletedJustly(steps: seq<Step>, i: nat) returns (k: nat)
    requires Fresh(steps) && i < |RunOf(steps).log| && RunOf(steps).log[i].Completed?
    ensures var log := RunOf(steps).log;
            && k < i && FoundAt(log[..i], k, StatusFor(log[i].received))
            && JournalOf(log[..k]).pending.Some? && JournalOf(log[..i]).pending.Some?
            && SameMessage(JournalOf(log[..k]).pending.value, JournalOf(log[..i]).pending.value)
  {
    hide JournalOf, RunOf, Fresh, Good;
    RunGood(steps);
    var log := RunOf(steps).log;
    GoodAt(log, i);
    k :| k < i && FoundAt(log[..i], k, StatusFor(log[i].received));
    assert log[..i][..k] == log[..k];
    assert forall m :: k <= m < i ==> !log[..i][m].Completed? && log[..i][m] == log[m];
    PendingKept(log, k, i);
  }
}

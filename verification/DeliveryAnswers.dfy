/**
 * What a delivery and a check of it do and answer, for every run with crashes: when a message is resumed, and what
 * each outcome of the search leads to otherwise.
 */
module DeliveryAnswers {
  import opened Prelude
  import opened CodexTimeline
  import opened CodexDelivery
  import opened DeliveryRuns

  // ---- The pending message and the volatile fields, from the log

  lemma {:induction false} JournalFits(log: seq<Effect>)
    requires Good(log)
    ensures var j := JournalOf(log); j.pending.Some? ==> |j.confirmed| < 128 && j.pending.value.original.messageId !in Ids(j.confirmed)
  {
    if log != [] {
      var before, e := log[..|log| - 1], log[|log| - 1];
      JournalFits(before);
      if e.Acknowledged? { WithoutSome(JournalOf(before).confirmed, e.messageIds); }
    }
  }

  lemma {:induction false} WithoutSome(confirmed: seq<Confirmation>, ids: set<string>)
    ensures |Without(confirmed, ids)| <= |confirmed|
    ensures forall c :: c in Without(confirmed, ids) <==> c in confirmed && c.messageId !in ids
  {
    if confirmed != [] {
      WithoutSome(confirmed[1..], ids);
    }
  }

  /** The length of the log when the process last started. */
  function StartedAfter(steps: seq<Step>): nat {
    if steps == [] then 0
    else if steps[|steps| - 1].crash.Some? then |RunOf(steps).log|
    else StartedAfter(steps[..|steps| - 1])
  }

  /** The pending message was pending already when the process last started. */
  predicate Survived(steps: seq<Step>, x: CodexInput)
    requires StartedAfter(steps) <= |RunOf(steps).log|
  {
    PendingId(JournalOf(RunOf(steps).log[..StartedAfter(steps)])) == Some(x.original.messageId)
  }

  /** Since then no check went on to resume it. */
  predicate Untried(steps: seq<Step>)
    requires StartedAfter(steps) <= |RunOf(steps).log|
  {
    SawState(Idle) !in RunOf(steps).log[StartedAfter(steps)..]
  }

  lemma ResumedMeans(r: Run, act: Activation)
    ensures Act(r, act).0.resumed <==> r.v.resumed || SawState(Idle) in Act(r, act).1
  {
    var j := JournalOf(r.log);
    match act
    case Deliver(text, id, captured, written, turn, writtenTurn) =>
    case Acknowledge(_, _) =>
    case Check(a, completed) =>
      if j.pending.Some? {
        CheckResumes(j, r.v, j.pending.value, r.restored == Some(j.pending.value.original.messageId), a);
        hide CheckOn;
      }
  }

  lemma CheckResumes(j: Journal, v: Volatile, x: CodexInput, restored: bool, a: Answers)
    ensures CheckOn(j, v, x, restored, a).next.resumed <==> v.resumed || SawState(Idle) in CheckOn(j, v, x, restored, a).effects
  {
    var v0 := if x.resumption.Some? then v.(retained := Some(x.original.messageId)) else v;
    hide Settle, Resume;
    if Vain(a) {
      SettleShape(j, v0, x, a.receipt.value, a);
      ResumeShape(j, v0, x, a);
    }
  }

  lemma SettleShape(j: Journal, v: Volatile, x: CodexInput, e: Evidence, a: Answers)
    ensures SawState(Idle) !in Settle(j, v, x, e, a).effects && Settle(j, v, x, e, a).next.resumed == v.resumed
  {
  }

  lemma ResumeShape(j: Journal, v: Volatile, x: CodexInput, a: Answers)
    ensures Resume(j, v, x, a).next.resumed
  {
  }

  predicate Since(r: Run, start: nat) {
    && start <= |r.log| && r.restored == PendingId(JournalOf(r.log[..start]))
    && (r.v.resumed <==> SawState(Idle) in r.log[start..])
  }

  lemma SinceStep(r: Run, step: Step, start: nat)
    requires Since(r, start)
    ensures Since(Advance(r, step), if step.crash.Some? then |Advance(r, step).log| else start)
  {
    var effects := Act(r, step.activation).1;
    ResumedMeans(r, step.activation);
    hide Act, JournalOf;
    if step.crash.None? {
      assert (r.log + effects)[..start] == r.log[..start];
      assert (r.log + effects)[start..] == r.log[start..] + effects;
    } else {
      var log := Advance(r, step).log;
      assert log[..|log|] == log && log[|log|..] == [];
    }
  }

  lemma {:induction false} SinceStart(steps: seq<Step>)
    ensures StartedAfter(steps) <= |RunOf(steps).log|
    ensures RunOf(steps).restored == PendingId(JournalOf(RunOf(steps).log[..StartedAfter(steps)]))
    ensures RunOf(steps).v.resumed <==> !Untried(steps)
  {
    SinceAlways(steps);
  }

  lemma {:induction false} SinceAlways(steps: seq<Step>)
    ensures Since(RunOf(steps), StartedAfter(steps))
  {
    if steps != [] {
      SinceAlways(steps[..|steps| - 1]);
      SinceStep(RunOf(steps[..|steps| - 1]), steps[|steps| - 1], StartedAfter(steps[..|steps| - 1]));
      hide Since, Advance;
    }
  }

  // ---- One check

  predicate Vain(a: Answers) {
    a.receipt.Success? && a.receipt.value.status != Status.Received
  }

  /** What a check looks for: the resumption, once there is one. */
  function Current(x: CodexInput): Publication {
    match x.resumption
    case Some(p) => p
    case None => x.original
  }

  /** A message that survived a restart is resumed once; a resumption that was interrupted is resumed again. */
  predicate Due(steps: seq<Step>, x: CodexInput, a: Answers)
    requires StartedAfter(steps) <= |RunOf(steps).log|
  {
    Vain(a) && ((Survived(steps, x) && Untried(steps)) || (x.resumption.Some? && a.receipt.value.status == Status.Interrupted))
  }

  predicate Accepted(turn: Option<string>) {
    turn.Some? && turn.value != ""
  }

  function PendingOf(steps: seq<Step>): Option<CodexInput> {
    JournalOf(RunOf(steps).log).pending
  }

  function EffectsOf(steps: seq<Step>, act: Activation): seq<Effect> {
    Act(RunOf(steps), act).1
  }

  /** What a check answers to its caller. */
  function AnswerOf(steps: seq<Step>, a: Answers): Result<NativeReceipt, DeliveryFault>
    requires PendingOf(steps).Some?
  {
    var x := PendingOf(steps).value;
    CheckOn(JournalOf(RunOf(steps).log), RunOf(steps).v, x, RunOf(steps).restored == Some(x.original.messageId), a).result
  }

  /** What is submitted to resume a message: a notice of its own identity, looked for from the boundary just captured. */
  function ResumptionOf(a: Answers): Publication
    requires a.captured.Some?
  {
    Publication(None, a.notice, "crossfire-resume-" + a.identifier, a.captured.value.0, a.captured.value.1)
  }

  function Submission(x: CodexInput, p: Publication, resumption: bool, turn: Option<string>, writtenTurn: bool): seq<Effect> {
    var saved := if resumption then CodexInput(x.original, Some(p)) else CodexInput(p, None);
    var known := if resumption then CodexInput(x.original, Some(p.(turn := turn))) else CodexInput(p.(turn := turn), None);
    [Saved(saved), Started(p, resumption)] + if Accepted(turn) && writtenTurn then [Saved(known)] else []
  }

  function SubmissionAnswer(turn: Option<string>, writtenTurn: bool): Result<NativeReceipt, DeliveryFault> {
    if !Accepted(turn) then Failure(StartFault) else if !writtenTurn then Failure(SaveFault) else Success(Waiting)
  }

  predicate Resumes(steps: seq<Step>, a: Answers)
    requires PendingOf(steps).Some? && StartedAfter(steps) <= |RunOf(steps).log|
  {
    Due(steps, PendingOf(steps).value, a) && a.state == Some(Idle) && a.captured.Some? && a.written
  }

  /**
   * A check starts a resumption exactly when it looks in vain for a message that survived the last restart and has
   * not been taken up since, or for an interrupted resumption, and the thread is idle and capture and save succeed.
   */
  lemma {:induction false} ResumesExactly(steps: seq<Step>, a: Answers, completed: bool)
    requires Fresh(steps) && PendingOf(steps).Some?
    ensures StartedAfter(steps) <= |RunOf(steps).log|
    ensures Starts(EffectsOf(steps, Check(a, completed))) <==> Resumes(steps, a)
    ensures Resumes(steps, a) ==>
              var x := PendingOf(steps).value;
              && EffectsOf(steps, Check(a, completed))
                 == [Looked(Current(x), a.receipt), SawState(Idle)] + Submission(x, ResumptionOf(a), true, a.turn, a.writtenTurn)
              && AnswerOf(steps, a) == SubmissionAnswer(a.turn, a.writtenTurn)
  {
    SinceStart(steps);
    RunGood(steps);
    JournalFits(RunOf(steps).log);
    var r := RunOf(steps);
    var j := JournalOf(r.log);
    hide RunOf, JournalOf, Fresh, StartedAfter, Survived, Untried, Good;
    CheckResumesExactly(j, r.v, j.pending.value, r.restored == Some(j.pending.value.original.messageId), a);
    hide CheckOn;
  }

  /** The journal then holds the resumption, with its turn once that is known and saved, beside the original message. */
  lemma {:induction false} ResumptionJournaled(steps: seq<Step>, a: Answers, completed: bool)
    requires Fresh(steps) && PendingOf(steps).Some? && StartedAfter(steps) <= |RunOf(steps).log| && Resumes(steps, a)
    ensures JournalOf(RunOf(steps).log + EffectsOf(steps, Check(a, completed))).pending
            == Some(CodexInput(PendingOf(steps).value.original,
                               Some(ResumptionOf(a).(turn := if Accepted(a.turn) && a.writtenTurn then a.turn else None))))
  {
    ResumesExactly(steps, a, completed);
    var log, x, p := RunOf(steps).log, PendingOf(steps).value, ResumptionOf(a);
    hide RunOf, JournalOf, Resumes, EffectsOf, Fresh, StartedAfter, Submission;
    var seen := [Looked(Current(x), a.receipt), SawState(Idle)];
    ResumptionSaved(log + seen, x, p, a.turn, a.writtenTurn);
    assert log + EffectsOf(steps, Check(a, completed)) == log + seen + Submission(x, p, true, a.turn, a.writtenTurn);
  }

  lemma ResumptionSaved(log: seq<Effect>, x: CodexInput, p: Publication, turn: Option<string>, writtenTurn: bool)
    requires p.turn.None?
    ensures JournalOf(log + Submission(x, p, true, turn, writtenTurn)).pending
            == Some(CodexInput(x.original, Some(p.(turn := if Accepted(turn) && writtenTurn then turn else None))))
  {
    hide JournalOf;
    var saved := log + [Saved(CodexInput(x.original, Some(p)))];
    JournalSnoc(log, Saved(CodexInput(x.original, Some(p))));
    JournalSnoc(saved, Started(p, true));
    if Accepted(turn) && writtenTurn {
      var known := Saved(CodexInput(x.original, Some(p.(turn := turn))));
      JournalSnoc(saved + [Started(p, true)], known);
      assert log + Submission(x, p, true, turn, writtenTurn) == saved + [Started(p, true)] + [known];
    } else {
      assert log + Submission(x, p, true, turn, writtenTurn) == saved + [Started(p, true)];
    }
  }

  lemma CheckResumesExactly(j: Journal, v: Volatile, x: CodexInput, restored: bool, a: Answers)
    requires j.pending == Some(x) && |j.confirmed| < 128 && x.original.messageId !in Ids(j.confirmed)
    ensures var o := CheckOn(j, v, x, restored, a);
            var due := Vain(a) && ((restored && !v.resumed) || (x.resumption.Some? && a.receipt.value.status == Status.Interrupted));
            var resumes := due && a.state == Some(Idle) && a.captured.Some? && a.written;
            && (Starts(o.effects) <==> resumes)
            && (resumes ==>
                  && o.effects == [Looked(Current(x), a.receipt), SawState(Idle)] + Submission(x, ResumptionOf(a), true, a.turn, a.writtenTurn)
                  && o.result == SubmissionAnswer(a.turn, a.writtenTurn) && o.result != Success(NativeReceipt.Interrupted))
  {
    var v0 := if x.resumption.Some? then v.(retained := Some(x.original.messageId)) else v;
    var rest := Searched(j, v0, x, restored, a);
    assert CheckOn(j, v, x, restored, a).effects == [Looked(Current(x), a.receipt)] + rest.effects;
    if Vain(a) {
      ResumeEffects(j, v0, x, a);
      SettleSaves(j, v0, x, a.receipt.value, a);
      hide Resume, Settle, Submission, Resumption, CheckOn;
    }
  }

  lemma ResumeEffects(j: Journal, v: Volatile, x: CodexInput, a: Answers)
    requires j.pending == Some(x) && |j.confirmed| < 128 && x.original.messageId !in Ids(j.confirmed)
    ensures var o, saves := Resume(j, v, x, a), a.captured.Some? && a.written;
            && o.effects == (if saves then Submission(x, ResumptionOf(a), true, a.turn, a.writtenTurn) else [])
            && o.result == (if a.captured.None? then Failure(CaptureFault) else if !a.written then Failure(SaveFault)
                            else SubmissionAnswer(a.turn, a.writtenTurn))
            && (saves ==> o.effects[1].Started?)
  {
  }

  lemma SettleSaves(j: Journal, v: Volatile, x: CodexInput, e: Evidence, a: Answers)
    ensures forall s :: s in Settle(j, v, x, e, a).effects ==> s.Saved?
  {
  }

  // ---- A check that does not resume

  /** Checks without news since the process started, the last delivery began, or a check settled. */
  function Misses(steps: seq<Step>): nat {
    if steps == [] then 0
    else
      var init, step := steps[..|steps| - 1], steps[|steps| - 1];
      if step.crash.Some? then 0
      else
        match step.activation
        case Deliver(_, id, _, _, _, _) => if PendingOf(init).Some? || id in Ids(JournalOf(RunOf(init).log).confirmed) then Misses(init) else 0
        case Acknowledge(_, _) => Misses(init)
        case Check(a, completed) =>
          if PendingOf(init).None? then Misses(init)
          else
            Counted(AnswerOf(init, a), Current(PendingOf(init).value).initializing, Starts(EffectsOf(init, Check(a, completed))), Misses(init))
  }

  predicate Starts(effects: seq<Effect>) {
    exists e :: e in effects && e.Started?
  }

  function Counted(answer: Result<NativeReceipt, DeliveryFault>, initializing: bool, started: bool, n: nat): nat {
    match answer
    case Success(receipt) => if receipt.Pending? then n + 1 else if receipt.Interrupted? || (receipt.Waiting? && !started) then 0 else n
    case Failure(fault) =>
      if fault.NotRetained? || (initializing && fault == SearchFault(UnavailableMethod)) then n + 1 else if fault.NotRecorded? then 0 else n
  }

  predicate Moves(x: CodexInput, e: Evidence) {
    || Current(x).initializing
    || match (e.boundary, Current(x).boundary)
       case (Some(seen), Some(known)) => seen.key != known.key
       case (seen, known) => seen.Some? || known.Some?
  }

  function Relocated(x: CodexInput, boundary: Option<HistoryBoundary>): CodexInput {
    if x.resumption.Some? then CodexInput(x.original, Some(x.resumption.value.(initializing := false, boundary := boundary)))
    else CodexInput(x.original.(initializing := false, boundary := boundary), None)
  }

  /** A third check without news gives up, and so does a turn that is not known or ended without the message. */
  function VainAnswer(x: CodexInput, e: Evidence, written: bool, misses: nat): Result<NativeReceipt, DeliveryFault> {
    if Current(x).turn.None? then Failure(Uncertain)
    else if Moves(x, e) && !written then Failure(SaveFault)
    else
      match e.status
      case Unavailable => if misses < 2 then Success(NativeReceipt.Pending) else Failure(NotRetained)
      case Interrupted => Success(NativeReceipt.Interrupted)
      case Missing => Failure(NotRecorded)
      case _ => Success(Waiting)
  }

  function Moving(x: CodexInput, e: Evidence, written: bool): seq<Effect> {
    if Current(x).turn.Some? && Moves(x, e) && written then [Saved(Relocated(x, e.boundary))] else []
  }

  /** The effects and the answer of a check that starts nothing. */
  function Quiet(x: CodexInput, due: bool, a: Answers, misses: nat): (seq<Effect>, Result<NativeReceipt, DeliveryFault>) {
    var look := [Looked(Current(x), a.receipt)];
    match a.receipt
    case Failure(f) =>
      (look, if Current(x).initializing && f == UnavailableMethod && misses < 2 then Success(NativeReceipt.Pending) else Failure(SearchFault(f)))
    case Success(e) =>
      if e.status == Status.Received then (look, Success(NativeReceipt.Received))
      else if due && a.state.None? then (look, Failure(StateFault))
      else if due && a.state.value == Idle then (look + [SawState(Idle)], Failure(if a.captured.None? then CaptureFault else SaveFault))
      else (look + (if due then [SawState(a.state.value)] else []) + Moving(x, e, a.written), VainAnswer(x, e, a.written, misses))
  }

  lemma CheckQuiet(j: Journal, v: Volatile, x: CodexInput, restored: bool, a: Answers)
    requires j.pending == Some(x) && |j.confirmed| < 128 && x.original.messageId !in Ids(j.confirmed)
    ensures var o := CheckOn(j, v, x, restored, a);
            var due := Vain(a) && ((restored && !v.resumed) || (x.resumption.Some? && a.receipt.value.status == Status.Interrupted));
            !(due && a.state == Some(Idle) && a.captured.Some? && a.written) ==> (o.effects, o.result) == Quiet(x, due, a, v.unavailable)
  {
    var v0 := if x.resumption.Some? then v.(retained := Some(x.original.messageId)) else v;
    var rest := Searched(j, v0, x, restored, a);
    assert CheckOn(j, v, x, restored, a).effects == [Looked(Current(x), a.receipt)] + rest.effects;
    assert [Looked(Current(x), a.receipt)] + [] == [Looked(Current(x), a.receipt)];
    if Vain(a) {
      ResumeEffects(j, v0, x, a);
      SettleMeans(j, v0, x, a.receipt.value, a);
      hide Resume, Settle, Submission, Resumption, CheckOn, Moving, VainAnswer;
      var look, moving := [Looked(Current(x), a.receipt)], Moving(x, a.receipt.value, a.written);
      assert look + [] + moving == look + moving;
      if a.state.Some? {
        assert look + ([SawState(a.state.value)] + moving) == look + [SawState(a.state.value)] + moving;
        assert look + ([SawState(a.state.value)] + []) == look + [SawState(a.state.value)];
      }
    }
  }

  lemma SettleMeans(j: Journal, v: Volatile, x: CodexInput, e: Evidence, a: Answers)
    requires j.pending == Some(x) && |j.confirmed| < 128 && x.original.messageId !in Ids(j.confirmed) && e.status != Status.Received
    ensures var o := Settle(j, v, x, e, a);
            && o.effects == Moving(x, e, a.written) && o.result == VainAnswer(x, e, a.written, v.unavailable)
  {
  }

  lemma {:induction false} MissesAre(steps: seq<Step>)
    requires Fresh(steps)
    ensures RunOf(steps).v.unavailable == Misses(steps)
  {
    if steps != [] {
      var init, step := steps[..|steps| - 1], steps[|steps| - 1];
      MissesAre(init);
      RunGood(init);
      JournalFits(RunOf(init).log);
      hide JournalOf, Good, Counted, Starts;
      if step.activation.Check? && PendingOf(init).Some? {
        ActMisses(RunOf(init), step.activation);
        hide Act, CheckOn;
      }
    }
  }

  lemma ActMisses(r: Run, act: Activation)
    requires var j := JournalOf(r.log);
             j.pending.Some? && |j.confirmed| < 128 && j.pending.value.original.messageId !in Ids(j.confirmed) && act.Check?
    ensures var j, x, a := JournalOf(r.log), JournalOf(r.log).pending.value, act.answers;
            Act(r, act).0.unavailable == Counted(CheckOn(j, r.v, x, r.restored == Some(x.original.messageId), a).result,
                                                 Current(x).initializing, Starts(Act(r, act).1), r.v.unavailable)
  {
    var j, x, a := JournalOf(r.log), JournalOf(r.log).pending.value, act.answers;
    CheckMisses(j, r.v, x, r.restored == Some(x.original.messageId), a);
    hide CheckOn, JournalOf, Counted;
    StartsEarlier(CheckOn(j, r.v, x, r.restored == Some(x.original.messageId), a).effects, Completed(true));
    StartsEarlier(CheckOn(j, r.v, x, r.restored == Some(x.original.messageId), a).effects, Completed(false));
  }

  lemma StartsEarlier(effects: seq<Effect>, e: Effect)
    requires !e.Started?
    ensures Starts(effects + [e]) <==> Starts(effects)
  {
    if f :| f in effects && f.Started? { assert f in effects + [e]; }
  }

  lemma CheckMisses(j: Journal, v: Volatile, x: CodexInput, restored: bool, a: Answers)
    requires j.pending == Some(x) && |j.confirmed| < 128 && x.original.messageId !in Ids(j.confirmed)
    ensures var o := CheckOn(j, v, x, restored, a);
            o.next.unavailable == Counted(o.result, Current(x).initializing, Starts(o.effects), v.unavailable)
  {
    var v0 := if x.resumption.Some? then v.(retained := Some(x.original.messageId)) else v;
    var rest := Searched(j, v0, x, restored, a);
    assert CheckOn(j, v, x, restored, a).effects == [Looked(Current(x), a.receipt)] + rest.effects;
    StartsLater(Looked(Current(x), a.receipt), rest.effects);
    if Vain(a) {
      SettleCounts(j, v0, x, a.receipt.value, a);
      ResumeCounts(j, v0, x, a);
      hide Resume, Settle, CheckOn, Counted, Starts;
      if a.state.Some? {
        StartsLater(SawState(a.state.value), Settle(j, v0, x, a.receipt.value, a).effects);
        StartsLater(SawState(a.state.value), Resume(j, v0, x, a).effects);
      }
      assert !Starts([]) by { NothingStarts(); }
    }
  }

  lemma StartsLater(e: Effect, effects: seq<Effect>)
    requires !e.Started?
    ensures Starts([e] + effects) <==> Starts(effects)
  {
    if f :| f in effects && f.Started? { assert f in [e] + effects; }
  }

  lemma NothingStarts()
    ensures !Starts([])
  {
  }

  lemma SettleCounts(j: Journal, v: Volatile, x: CodexInput, e: Evidence, a: Answers)
    requires e.status != Status.Received
    ensures var o := Settle(j, v, x, e, a); forall initializing :: o.next.unavailable == Counted(o.result, initializing, Starts(o.effects), v.unavailable)
  {
    SettleSaves(j, v, x, e, a);
  }

  lemma ResumeCounts(j: Journal, v: Volatile, x: CodexInput, a: Answers)
    ensures var o := Resume(j, v, x, a); forall initializing :: o.next.unavailable == Counted(o.result, initializing, Starts(o.effects), v.unavailable)
  {
    var o := Resume(j, v, x, a);
    assert o.result == Success(Waiting) ==> o.effects[1].Started?;
  }

  /** What any other check does and answers. */
  lemma {:induction false} AnswersExactly(steps: seq<Step>, a: Answers, completed: bool)
    requires Fresh(steps) && PendingOf(steps).Some?
    ensures StartedAfter(steps) <= |RunOf(steps).log|
    ensures !Resumes(steps, a) ==>
              var (effects, answer) := Quiet(PendingOf(steps).value, Due(steps, PendingOf(steps).value, a), a, Misses(steps));
              && AnswerOf(steps, a) == answer
              && EffectsOf(steps, Check(a, completed)) == effects
                 + if !completed then []
                   else if answer == Success(NativeReceipt.Received) then [Completed(true)]
                   else if answer == Success(NativeReceipt.Interrupted) then [Completed(false)] else []
  {
    SinceStart(steps);
    RunGood(steps);
    MissesAre(steps);
    JournalFits(RunOf(steps).log);
    var r := RunOf(steps);
    var j := JournalOf(r.log);
    hide RunOf, JournalOf, Fresh, StartedAfter, Survived, Untried, Good, Misses, Quiet;
    CheckQuiet(j, r.v, j.pending.value, r.restored == Some(j.pending.value.original.messageId), a);
    hide CheckOn;
  }

  // ---- Deliveries

  /** The message completed as received at i, and its receipt has not been acknowledged since. */
  predicate ConfirmedAt(log: seq<Effect>, i: nat, id: string) {
    && i < |log| && log[i] == Completed(true) && PendingId(JournalOf(log[..i])) == Some(id)
    && forall k :: i < k < |log| && log[k].Acknowledged? ==> id !in log[k].messageIds
  }

  /** The journal lists as confirmed exactly the messages received and not yet acknowledged. */
  lemma {:induction false} ConfirmedMeans(log: seq<Effect>, id: string)
    ensures id in Ids(JournalOf(log).confirmed) <==> exists i :: ConfirmedAt(log, i, id)
  {
    if log != [] {
      var init, e := log[..|log| - 1], log[|log| - 1];
      ConfirmedMeans(init, id);
      ConfirmedStep(JournalOf(init), e, id);
      hide JournalOf, Ids;
      if i: nat :| ConfirmedAt(init, i, id) {
        assert init[..i] == log[..i];
        if !(e.Acknowledged? && id in e.messageIds) { assert ConfirmedAt(log, i, id); }
      }
      if i: nat :| ConfirmedAt(log, i, id) {
        if i < |init| {
          assert init[..i] == log[..i];
          assert ConfirmedAt(init, i, id);
        } else {
          assert log[..i] == init;
        }
      }
      if e == Completed(true) && PendingId(JournalOf(init)) == Some(id) {
        assert ConfirmedAt(log, |init|, id);
      }
    }
  }

  lemma ConfirmedStep(j: Journal, e: Effect, id: string)
    ensures id in Ids(After(j, e).confirmed) <==>
            if e == Completed(true) && PendingId(j) == Some(id) then true
            else id in Ids(j.confirmed) && !(e.Acknowledged? && id in e.messageIds)
  {
    match e
    case Completed(_) =>
    case Acknowledged(ids) =>
      WithoutSome(j.confirmed, ids);
      assert forall c :: c in j.confirmed && c.messageId !in ids ==> c in Without(j.confirmed, ids);
    case _ =>
  }

  /**
   * A delivery saves and submits its message exactly when nothing is pending, the message is not one received and
   * not yet acknowledged, fewer than 128 such are kept, and capture and save succeed.
   */
  lemma {:induction false} DeliversExactly(steps: seq<Step>, text: string, id: string, captured: Option<(Option<HistoryBoundary>, bool)>,
                                           written: bool, turn: Option<string>, writtenTurn: bool)
    ensures EffectsOf(steps, Deliver(text, id, captured, written, turn, writtenTurn)) ==
            if PendingOf(steps).Some? || (exists i :: ConfirmedAt(RunOf(steps).log, i, id)) || captured.None? || !written
               || |JournalOf(RunOf(steps).log).confirmed| >= 128 then []
            else
              var p := Publication(None, text, id, captured.value.0, captured.value.1);
              Submission(CodexInput(p, None), p, false, turn, writtenTurn)
  {
    ConfirmedMeans(RunOf(steps).log, id);
    hide RunOf, JournalOf, ConfirmedAt;
  }

  /** And it answers so. */
  lemma DeliveryAnswered(j: Journal, v: Volatile, text: string, id: string, captured: Option<(Option<HistoryBoundary>, bool)>,
                         written: bool, turn: Option<string>, writtenTurn: bool)
    requires j.pending.None?
    ensures DeliverOn(j, v, text, id, captured, written, turn, writtenTurn).result ==
            if captured.None? then Failure(CaptureFault)
            else if !written || |j.confirmed| >= 128 || id in Ids(j.confirmed) then Failure(SaveFault)
            else SubmissionAnswer(turn, writtenTurn)
  {
  }
}

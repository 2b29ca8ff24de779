/**
 * Which requests, replies and decisions the multiplexer takes, exactly: a request is refused only when 64 others
 * are unsent or unanswered, a reply completes the request it answers, and 16 decisions can be open.
 */
module WebSocketLaws {
  import opened Prelude
  import opened WebSocketProtocol

  // ---- What is pending

  /** The id belongs to a request that is not sent yet. */
  predicate Unwritten(callers: map<nat, Phase>, issuedTo: map<nat, nat>, id: nat) {
    id in issuedTo && issuedTo[id] in callers && (callers[issuedTo[id]] == Queued(id) || callers[issuedTo[id]] == Sending(id))
  }

  ghost predicate NoLeak(pending: map<nat, bool>, callers: map<nat, Phase>, issuedTo: map<nat, nat>, wire: set<nat>, answered: set<nat>) {
    forall id :: id in pending ==> Unwritten(callers, issuedTo, id) || (id in wire && id !in answered)
  }

  ghost predicate Sound(w: World) {
    NoLeak(w.table.pending, w.callers, w.issuedTo, w.wire, w.answered)
  }

  /** When one caller moves, at most the id it held is no longer accounted for. */
  lemma OneMoves(w: World, after: map<nat, Phase>, c: nat)
    requires Sound(w) && forall d :: d != c ==> (d in after <==> d in w.callers) && (d in after ==> after[d] == w.callers[d])
    ensures forall id :: id in w.table.pending ==>
              Unwritten(after, w.issuedTo, id) || (id in w.wire && id !in w.answered) || (c in w.callers && IdOf(w.callers[c]) == Some(id))
  {
  }

  lemma FailsSound(w: World)
    requires w.table.failed ==> w.table.pending == map[]
    ensures Fails(w).table.failed && Sound(Fails(w))
  {
  }

  lemma EnterSound(w: World, c: nat)
    requires Sound(w)
    ensures Sound(QueueStep(w, Enter(c)))
  {
    if c !in w.callers && !w.table.failed {
      OneMoves(w, w.callers[c := Admitted], c);
    }
  }

  lemma RegisterSound(w: World, c: nat)
    requires Inv(w) && Sound(w)
    ensures Sound(QueueStep(w, Register(c)))
  {
    hide Owned, AllUnsent, AllRegistered, Awaited, Outcomes, CallerWrites, AnswerWrites, Deciders, Covered, Flags;
    if InPhase(w, c) == Admitted {
      OneMoves(w, w.callers[c := Leaving], c);
      var id := w.table.sequence + 1;
      assert id !in w.issuedTo;
      if HasCapacity(w.table) {
        OneMoves(w, w.callers[c := Queued(id)], c);
        NewId(w, w.callers[c := Queued(id)], id, c);
      }
      hide NoLeak, IdOf;
    }
  }

  lemma NewId(w: World, after: map<nat, Phase>, id: nat, c: nat)
    requires id !in w.issuedTo && NoLeak(w.table.pending, after, w.issuedTo, w.wire, w.answered) && c in after && after[c] == Queued(id)
    ensures NoLeak(w.table.pending[id := false], after, w.issuedTo[id := c], w.wire, w.answered)
  {
  }

  lemma CancelSound(w: World, e: Event)
    requires Inv(w) && Sound(w) && (e.CancelQueued? || e.Oversized?)
    ensures Sound(QueueStep(w, e))
  {
    hide Issuance, Owned, AllUnsent, AllRegistered, Awaited, Outcomes, CallerWrites, AnswerWrites, Deciders, Covered;
    if InPhase(w, e.caller).Queued? {
      hide Fails;
      FailsSound(w.(callers := w.callers[e.caller := Leaving]));
      OneMoves(w, w.callers[e.caller := Leaving], e.caller);
    }
  }

  lemma MarkSound(w: World, c: nat)
    requires Inv(w) && Sound(w)
    ensures Sound(SendStep(w, MarkSent(c)))
  {
    hide Issuance, AllUnsent, Awaited, Outcomes, CallerWrites, AnswerWrites, Deciders, Covered, Flags;
    if InPhase(w, c).Queued? {
      OneMoves(w, w.callers[c := Sending(w.callers[c].id)], c);
      assert Registered(w.callers[c], w.table.pending) || w.table.failed;
    }
  }

  lemma TransmitSound(w: World, e: Event)
    requires Inv(w) && Sound(w) && (e.Transmit? || e.TransmitFails?)
    ensures Sound(SendStep(w, e))
  {
    hide Issuance, Owned, AllRegistered, Awaited, Outcomes, CallerWrites, AnswerWrites, Deciders, Covered;
    var c := e.caller;
    if InPhase(w, c).Sending? {
      assert Unsent(w.callers[c], w.wire);
      if e.Transmit? {
        OneMoves(w, w.callers[c := Awaiting(w.callers[c].id)], c);
      }
    }
  }

  lemma LeaveSound(w: World, e: Event)
    requires Sound(w) && (e.CancelAwaiting? || e.Observe? || e.Leave?)
    ensures Sound(SendStep(w, e))
  {
    if e.caller in w.callers {
      if !w.callers[e.caller].Queued? && !w.callers[e.caller].Sending? {
        QuietMoves(w, w.callers[e.caller := Leaving], e.caller);
        QuietMoves(w, w.callers - {e.caller}, e.caller);
      }
    }
  }

  lemma QuietMoves(w: World, after: map<nat, Phase>, c: nat)
    requires Sound(w) && forall d :: d != c ==> (d in after <==> d in w.callers) && (d in after ==> after[d] == w.callers[d])
    requires c in w.callers && !w.callers[c].Queued? && !w.callers[c].Sending?
    ensures NoLeak(w.table.pending, after, w.issuedTo, w.wire, w.answered)
  {
  }

  lemma ReplySound(w: World, id: nat)
    requires Sound(w)
    ensures Sound(ReplyStep(w, id))
  {
    if id in w.wire && id !in w.answered && id !in w.table.pending {
      FewerAnswers(w, id);
    }
    hide Fails;
  }

  lemma FewerAnswers(w: World, id: nat)
    requires Sound(w) && id !in w.table.pending
    ensures forall unexpected :: Sound(Fails(w.(answered := w.answered + {id}, unexpected := unexpected)))
  {
  }

  lemma AnswerSound(w: World, e: Event)
    requires Sound(w)
    ensures Sound(AnswerStep(w, e))
  {
    assert Sound(Fails(w));
    hide Fails;
  }

  lemma ShutdownSound(w: World, e: Event)
    requires Sound(w) && !Queues(e) && !Sends(e) && !e.Reply? && !Decides(e)
    ensures Sound(ShutdownStep(w, e))
  {
  }

  lemma QueueSound(w: World, e: Event)
    requires Inv(w) && Sound(w) && Queues(e)
    ensures Sound(QueueStep(w, e))
  {
    hide Inv, Sound, QueueStep;
    if e.Enter? { EnterSound(w, e.caller); }
    else if e.Register? { RegisterSound(w, e.caller); }
    else { CancelSound(w, e); }
  }

  lemma SendSound(w: World, e: Event)
    requires Inv(w) && Sound(w) && Sends(e)
    ensures Sound(SendStep(w, e))
  {
    hide Inv, Sound, SendStep;
    if e.MarkSent? { MarkSound(w, e.caller); }
    else if e.Transmit? || e.TransmitFails? { TransmitSound(w, e); }
    else { LeaveSound(w, e); }
  }

  lemma {:induction false} AlwaysSound(events: seq<Event>)
    ensures Sound(Run(events))
  {
    if events != [] {
      var w, e := Run(events[..|events| - 1]), events[|events| - 1];
      AlwaysSound(events[..|events| - 1]);
      Always(events[..|events| - 1]);
      hide Inv, Sound, QueueStep, SendStep, ReplyStep, AnswerStep, ShutdownStep;
      if Queues(e) { QueueSound(w, e); }
      else if Sends(e) { SendSound(w, e); }
      else if e.Reply? { ReplySound(w, e.id); }
      else if Decides(e) { AnswerSound(w, e); }
      else { ShutdownSound(w, e); }
    }
  }

  /**
   * Until a failure the table holds exactly the requests that are not sent yet and those the peer has received
   * and not answered: none is forgotten, and none stays behind.
   */
  lemma {:induction false} PendingExactly(events: seq<Event>, id: nat)
    requires !Run(events).table.failed
    ensures var w := Run(events);
            id in w.table.pending <==>
            (exists c :: c in w.callers && (w.callers[c] == Queued(id) || w.callers[c] == Sending(id))) || (id in w.wire && id !in w.answered)
  {
    Always(events);
    AlwaysSound(events);
    hide Run, Issuance, Owned, AllUnsent, Outcomes, CallerWrites, AnswerWrites, Deciders, Covered, Flags;
    var w := Run(events);
    if c :| c in w.callers && (w.callers[c] == Queued(id) || w.callers[c] == Sending(id)) {
      assert Registered(w.callers[c], w.table.pending);
    }
  }

  // ---- Capacity

  /**
   * A caller that has entered is given the next id exactly while the connection has not failed, fewer than 64
   * requests are pending and ids are left; otherwise it leaves and nothing else changes.
   */
  lemma {:induction false} RegistersExactly(events: seq<Event>, c: nat)
    requires c in Run(events).callers && Run(events).callers[c] == Admitted
    ensures var w, v := Run(events), Run(events + [Event.Register(c)]);
            if !w.table.failed && |w.table.pending| < 64 && w.table.sequence < 9007199254740991 then
              var id := w.table.sequence + 1;
              && v.callers == w.callers[c := Queued(id)] && v.table.pending == w.table.pending[id := false] && v.table.sequence == id
              && id !in w.table.pending && id !in w.wire && id !in w.outcomes && id !in w.issuedTo && v.issuedTo == w.issuedTo[id := c]
            else v == w.(callers := w.callers[c := Leaving])
  {
    Always(events);
    RunSnoc(events, Event.Register(c));
    hide Run, Owned, AllUnsent, AllRegistered, Awaited, Outcomes, CallerWrites, AnswerWrites, Deciders, Covered, Flags;
  }

  lemma RunSnoc(events: seq<Event>, e: Event)
    ensures Run(events + [e]) == Next(Run(events), e)
  {
    assert (events + [e])[..|events|] == events;
  }

  /** Up to 64 requests do wait together. */
  lemma {:induction false} WaitTogether(n: nat) returns (events: seq<Event>)
    requires n <= 64
    ensures var w := Run(events);
            && !w.table.failed && |w.table.pending| == n && w.table.sequence == n && w.table.operations == n
            && (forall c :: c in w.callers <==> 0 <= c < n) && forall id :: id in w.table.pending ==> id <= n
  {
    if n == 0 {
      events := [];
    } else {
      var before := WaitTogether(n - 1);
      RunSnoc(before, Event.Enter(n - 1));
      RunSnoc(before + [Event.Enter(n - 1)], Event.Register(n - 1));
      events := before + [Event.Enter(n - 1)] + [Event.Register(n - 1)];
      hide Run;
      OneMoreWaits(Run(before), n - 1);
    }
  }

  lemma OneMoreWaits(w: World, n: nat)
    requires n < 64 && !w.table.failed && |w.table.pending| == n && w.table.sequence == n && w.table.operations == n
    requires (forall c :: c in w.callers <==> 0 <= c < n) && forall id :: id in w.table.pending ==> id <= n
    ensures var v := Next(Next(w, Event.Enter(n)), Event.Register(n));
            && !v.table.failed && |v.table.pending| == n + 1 && v.table.sequence == n + 1 && v.table.operations == n + 1
            && (forall c :: c in v.callers <==> 0 <= c < n + 1) && forall id :: id in v.table.pending ==> id <= n + 1
  {
    var u := Next(w, Event.Enter(n));
    assert u.table == w.table.(operations := n + 1) && u.callers == w.callers[n := Admitted];
    assert Next(u, Event.Register(n)).table.pending == w.table.pending[n + 1 := false];
    hide Next;
  }

  // ---- Replies and decisions

  /** A reply to a request the peer received completes that request and nothing else, and its caller can then go on. */
  lemma {:induction false} ReplyCompletes(events: seq<Event>, id: nat)
    requires var w := Run(events); id in w.wire && id !in w.answered && w.reading && !w.table.failed
    ensures var w, v := Run(events), Run(events + [Reply(id)]);
            && v == w.(table := w.table.(pending := w.table.pending - {id}), answered := w.answered + {id}, outcomes := w.outcomes + multiset{id})
            && id in w.table.pending && id !in w.outcomes
            && forall c :: c in v.callers && v.callers[c] == Awaiting(id) ==> Next(v, Observe(c)) == v.(callers := v.callers[c := Leaving])
  {
    Always(events);
    RunSnoc(events, Reply(id));
    hide Run, Issuance, Owned, AllUnsent, AllRegistered, CallerWrites, AnswerWrites, Deciders, Covered, Flags;
  }

  /** No caller goes on from a request before its outcome. */
  lemma ObservesOutcome(w: World, c: nat, id: nat)
    requires c in w.callers && w.callers[c] == Awaiting(id)
    ensures Next(w, Observe(c)) != w <==> id in w.outcomes
  {
    if id in w.outcomes {
      assert Next(w, Observe(c)).callers[c] == Leaving;
    }
  }

  /** Answers that still hold an entry of the decision table. */
  function Undecided(w: World): set<nat> {
    set a | a in w.answers && !w.answers[a].Removed?
  }

  ghost predicate Listed(answers: map<nat, Answering>, decisions: map<string, nat>) {
    forall key :: key in decisions ==>
      decisions[key] in answers && !answers[decisions[key]].Removed? && answers[decisions[key]].key == key
  }

  lemma StepListed(w: World, e: Event)
    requires Inv(w) && Listed(w.answers, w.table.decisions)
    ensures Listed(Next(w, e).answers, Next(w, e).table.decisions)
  {
    if Decides(e) {
      hide QueueStep, SendStep, ReplyStep, ShutdownStep, AnswerStep, Inv, Listed;
      AnswerListed(w, e);
    } else {
      hide Inv, Listed, Next;
      OthersKeepDecisions(w, e);
    }
  }

  lemma AnswerListed(w: World, e: Event)
    requires Listed(w.answers, w.table.decisions) && Decides(e)
    ensures Listed(AnswerStep(w, e).answers, AnswerStep(w, e).table.decisions)
  {
    FailsDecisions(w);
    hide Listed, Fails;
    var a, answers, decisions := e.answer, w.answers, w.table.decisions;
    if e.Ask? {
      if a !in answers && e.key !in decisions { AskListed(answers, decisions, a, e.key); }
    } else if a in answers {
      if answers[a].Removed? { FinishListed(answers, decisions, a); }
      else { MoveListed(answers, decisions, a); }
    }
  }

  lemma AskListed(answers: map<nat, Answering>, decisions: map<string, nat>, a: nat, key: string)
    requires Listed(answers, decisions) && a !in answers
    ensures Listed(answers[a := Deciding(key)], decisions[key := a])
  {
  }

  lemma FinishListed(answers: map<nat, Answering>, decisions: map<string, nat>, a: nat)
    requires Listed(answers, decisions) && a in answers && answers[a].Removed?
    ensures Listed(answers - {a}, decisions)
  {
  }

  lemma MoveListed(answers: map<nat, Answering>, decisions: map<string, nat>, a: nat)
    requires Listed(answers, decisions) && a in answers && !answers[a].Removed?
    ensures Listed(answers[a := Writing(answers[a].key)], decisions) && Listed(answers[a := Removing(answers[a].key)], decisions)
    ensures Listed(answers[a := Removed], decisions - {answers[a].key})
  {
  }

  lemma FailsDecisions(w: World)
    ensures Fails(w).answers == w.answers && Fails(w).table.decisions == w.table.decisions
  {
  }

  predicate SameDecisions(w: World, v: World) {
    v.answers == w.answers && v.table.decisions == w.table.decisions
  }

  lemma QueueDecisions(w: World, e: Event)
    ensures SameDecisions(w, QueueStep(w, e))
  {
  }

  lemma SendDecisions(w: World, e: Event)
    ensures SameDecisions(w, SendStep(w, e))
  {
  }

  lemma ReplyDecisions(w: World, id: nat)
    ensures SameDecisions(w, ReplyStep(w, id))
  {
    assert forall unexpected :: SameDecisions(w, Fails(w.(answered := w.answered + {id}, unexpected := unexpected)));
    hide Fails;
  }

  lemma ShutdownDecisions(w: World, e: Event)
    ensures SameDecisions(w, ShutdownStep(w, e))
  {
    FailsDecisions(w);
    hide Fails, Holding;
  }

  lemma OthersKeepDecisions(w: World, e: Event)
    requires !Decides(e)
    ensures Next(w, e).answers == w.answers && Next(w, e).table.decisions == w.table.decisions
  {
    hide QueueStep, SendStep, ReplyStep, AnswerStep, ShutdownStep;
    QueueDecisions(w, e);
    SendDecisions(w, e);
    ShutdownDecisions(w, e);
    if e.Reply? { ReplyDecisions(w, e.id); }
  }

  lemma {:induction false} AlwaysListed(events: seq<Event>)
    ensures Listed(Run(events).answers, Run(events).table.decisions)
  {
    if events != [] {
      AlwaysListed(events[..|events| - 1]);
      Always(events[..|events| - 1]);
      hide Next, Inv, Listed;
      StepListed(Run(events[..|events| - 1]), events[|events| - 1]);
    }
  }

  lemma DecisionsCount(w: World)
    requires Deciders(w.answers, w.table.decisions) && Listed(w.answers, w.table.decisions)
    ensures |w.table.decisions| == |Undecided(w)|
    ensures forall key :: key in w.table.decisions <==> exists a :: a in Undecided(w) && w.answers[a].key == key
  {
    KeysCount(w.table.decisions, w.answers, Undecided(w));
    forall key ensures key in w.table.decisions <==> exists a :: a in Undecided(w) && w.answers[a].key == key {
      if key in w.table.decisions { assert w.table.decisions[key] in Undecided(w); }
    }
  }

  lemma {:induction false} KeysCount(decisions: map<string, nat>, answers: map<nat, Answering>, open: set<nat>)
    requires forall a :: a in open ==> a in answers && !answers[a].Removed? && answers[a].key in decisions && decisions[answers[a].key] == a
    requires forall key :: key in decisions ==> decisions[key] in open && answers[decisions[key]].key == key
    ensures |decisions| == |open|
  {
    if open == {} {
      assert decisions.Keys == {};
    } else {
      var a :| a in open;
      var key := answers[a].key;
      KeysCount(decisions - {key}, answers, open - {a});
      FewerKeys(decisions, key);
    }
  }

  /**
   * A question of the peer is taken exactly while fewer than 16 are open and none of them has its key; any other
   * fails the connection.
   */
  lemma {:induction false} AsksExactly(events: seq<Event>, a: nat, key: string)
    requires a !in Run(events).answers && Run(events).reading
    ensures var w, v := Run(events), Run(events + [Ask(a, key)]);
            if |Undecided(w)| < 16 && forall b :: b in Undecided(w) ==> w.answers[b].key != key
            then v == w.(answers := w.answers[a := Deciding(key)], table := w.table.(decisions := w.table.decisions[key := a]))
            else v.table.failed && v.answers == w.answers
  {
    Always(events);
    AlwaysListed(events);
    RunSnoc(events, Ask(a, key));
    hide Run, Issuance, Owned, AllUnsent, AllRegistered, Awaited, Outcomes, CallerWrites, AnswerWrites, Covered, Flags, Listed, Deciders;
    DecisionsCount(Run(events));
  }

  // ---- The end

  /** With nobody using it the connection closes: it fails, its reader ends, there is nobody to wait for and all is released. */
  lemma {:induction false} ClosesAtOnce(events: seq<Event>)
    requires Run(events).closing.Open? && Run(events).callers == map[] && Run(events).answers == map[]
    ensures Run(events + [BeginClose] + [EndReading] + [AwaitUsers] + [Dispose]).closing.Disposed?
  {
    Always(events);
    RunSnoc(events, BeginClose);
    RunSnoc(events + [BeginClose], EndReading);
    RunSnoc(events + [BeginClose] + [EndReading], AwaitUsers);
    RunSnoc(events + [BeginClose] + [EndReading] + [AwaitUsers], Dispose);
    hide Run;
    CloseSteps(Run(events));
  }

  lemma CloseSteps(w: World)
    requires Inv(w) && w.closing.Open? && w.callers == map[] && w.answers == map[]
    ensures Next(Next(Next(Next(w, BeginClose), EndReading), AwaitUsers), Dispose).closing.Disposed?
  {
    hide Issuance, Owned, AllUnsent, AllRegistered, Awaited, Outcomes, CallerWrites, AnswerWrites, Deciders, Covered;
    FailsDecisions(w);
    hide QueueStep, SendStep, ReplyStep, AnswerStep;
    var begun := Next(w, BeginClose);
    assert begun.closing == Failing && begun.table.failed && begun.answers == map[] && begun.table.operations == 0;
    hide Inv, Fails;
    var ended := Next(begun, EndReading);
    assert ended == begun.(reading := false);
    assert Holding(ended) == {};
    hide Holding;
    assert Next(ended, AwaitUsers).closing == Waiting({}, false);
  }
}

/**
 * What the receipt search answers, in terms of the native events themselves. A server keeps one log of events,
 * oldest first, and answers each request with the JSON of one stretch of it and a cursor to the stretch before.
 */
module WireTimeline {
  import opened Prelude
  import opened CodexTimeline
  import opened TimelineTheorems

  // ---- Events and their JSON

  datatype Ending = Completed | Interrupted | Failed

  datatype Thing = Thing(id: string, kind: string, clientId: Option<string>, content: Option<seq<Part>>)

  datatype Event =
    | ItemAdded(position: nat, turn: string, thing: Thing)
    | Spoken(position: nat, speaker: Option<string>, thing: Thing)   // a realtime item, in a turn or in none
    | TurnStarted(position: nat, turn: string)
    | TurnCompleted(position: nat, turn: string, ending: Ending)

  predicate Proper(e: Event) {
    && e.position <= 9007199254740991
    && (!e.Spoken? ==> e.turn != "") && (e.ItemAdded? || e.Spoken? ==> e.thing.id != "")
  }

  predicate AllProper(log: seq<Event>) {
    forall i :: 0 <= i < |log| ==> Proper(log[i])
  }

  function WireThing(t: Thing): Option<Item> {
    Some(Item(Some(t.id), Some(t.kind), t.clientId, t.content))
  }

  function Wire(e: Event): WireEntry {
    match e
    case ItemAdded(position, turn, thing) => WireEntry(Some(position), Some("item"), Some(turn), WireThing(thing), None)
    case Spoken(position, speaker, thing) => WireEntry(Some(position), Some("realtime"), speaker, WireThing(thing), None)
    case TurnStarted(position, turn) => WireEntry(Some(position), Some("turnStarted"), Some(turn), None, None)
    case TurnCompleted(position, turn, ending) =>
      WireEntry(Some(position), Some("turnCompleted"), Some(turn), None,
                Some(if ending.Completed? then "completed" else if ending.Interrupted? then "interrupted" else "failed"))
  }

  function WireOf(log: seq<Event>): (r: seq<WireEntry>)
    ensures |r| == |log| && forall i :: 0 <= i < |log| ==> r[i] == Wire(log[i])
  {
    seq(|log|, i requires 0 <= i < |log| => Wire(log[i]))
  }

  /** The identity of an event: no two events of a log share one. */
  function Stamp(e: Event): HistoryBoundary {
    HistoryBoundary(e.position,
                    match e
                    case ItemAdded(position, turn, thing) => Key(position, "item", Some(turn), Some(thing.id))
                    case Spoken(position, speaker, thing) => Key(position, "realtime", speaker, Some(thing.id))
                    case TurnStarted(position, turn) => Key(position, "turnStarted", Some(turn), None)
                    case TurnCompleted(position, turn, _) => Key(position, "turnCompleted", Some(turn), None))
  }

  predicate OrderedEvents(log: seq<Event>) {
    forall i, j :: 0 <= i < j < |log| ==> log[i].position <= log[j].position && Stamp(log[i]) != Stamp(log[j])
  }

  // ---- An honest server

  /** A stretch of at most limit events, oldest first, and the cursor to what comes before it. */
  predicate Replies(reply: Reply, log: seq<Event>, limit: nat, offset: string -> nat, at: nat)
    requires at <= |log|
  {
    && reply.Answer? && reply.data.Some?
    && var size, end := |reply.data.value|, |log| - at;
       && size <= limit && size <= end && reply.data.value == WireOf(log[end - size..end])
       && (reply.next.End? || (reply.next.Cursor? && reply.next.text != "" && size > 0))
       && if reply.next.End? then size == end else offset(reply.next.text) == at + size
  }

  ghost predicate Honest(session: Session, log: seq<Event>, offset: string -> nat) {
    forall i: nat, cursor: Option<string> :: At(offset, cursor) <= |log| ==>
      Replies(session(i, cursor), log, 100, offset, At(offset, cursor))
  }

  /** What the adapter makes of the events. */
  function Shown(log: seq<Event>): (r: seq<Entry>)
    ensures |r| == |log| && forall i :: 0 <= i < |log| ==> r[i] == Entry(Wire(log[i]), Stamp(log[i]))
  {
    seq(|log|, i requires 0 <= i < |log| => Entry(Wire(log[i]), Stamp(log[i])))
  }

  lemma WireValid(e: Event)
    requires Proper(e)
    ensures ValidEntry(Wire(e)) && EntryOf(Wire(e)) == Entry(Wire(e), Stamp(e))
  {
  }

  /** The JSON of an event, with anything in the fields that such an event does not have. */
  predicate Encodes(w: WireEntry, e: Event) {
    Wire(e) == w.(item := if e.ItemAdded? || e.Spoken? then w.item else None, status := if e.TurnCompleted? then w.status else None)
  }

  /** A reply is read as a page exactly when it holds at most limit events and a usable cursor. */
  lemma {:induction false} AcceptsExactly(reply: Reply, limit: nat)
    ensures PageOf(reply, limit).Success? <==>
            && reply.Answer? && reply.data.Some? && |reply.data.value| <= limit
            && (forall i :: 0 <= i < |reply.data.value| ==> exists e :: Proper(e) && Encodes(reply.data.value[i], e))
            && (reply.next.End? || (reply.next.Cursor? && reply.next.text != "" && reply.data.value != []))
  {
    if reply.Answer? && reply.data.Some? {
      var data := reply.data.value;
      forall i | 0 <= i < |data| ensures ValidEntry(data[i]) <==> exists e :: Proper(e) && Encodes(data[i], e) {
        ValidExactly(data[i]);
      }
      hide ValidEntry, Proper, Encodes, EntryOf;
      assert (exists w | w in data :: !ValidEntry(w)) <==> exists i :: 0 <= i < |data| && !ValidEntry(data[i]);
    }
  }

  lemma ValidExactly(w: WireEntry)
    ensures ValidEntry(w) <==> exists e :: Proper(e) && Encodes(w, e)
  {
    if ValidEntry(w) {
      var e := if w.kind.value == "turnStarted" then TurnStarted(w.position.value, w.turn.value)
               else if w.kind.value == "turnCompleted" then
                 TurnCompleted(w.position.value, w.turn.value,
                               if w.status == Some("completed") then Completed else if w.status == Some("interrupted") then Ending.Interrupted else Failed)
               else
                 var thing := Thing(w.item.value.id.value, w.item.value.kind.value, w.item.value.clientId, w.item.value.content);
                 if w.kind.value == "item" then ItemAdded(w.position.value, w.turn.value, thing) else Spoken(w.position.value, w.turn, thing);
      assert Proper(e) && Encodes(w, e);
    }
    if e :| Proper(e) && Encodes(w, e) {
      assert Wire(e).kind == w.kind;
    }
  }

  lemma WiresValid(log: seq<Event>)
    requires AllProper(log)
    ensures forall i :: 0 <= i < |log| ==> ValidEntry(Wire(log[i])) && EntryOf(Wire(log[i])) == Shown(log)[i]
  {
    forall i | 0 <= i < |log| ensures ValidEntry(Wire(log[i])) && EntryOf(Wire(log[i])) == Shown(log)[i] {
      WireValid(log[i]);
    }
  }

  lemma ReadsStretch(reply: Reply, stretch: seq<Event>, limit: nat)
    requires AllProper(stretch) && reply.Answer? && reply.data == Some(WireOf(stretch)) && |stretch| <= limit
    requires reply.next.End? || (reply.next.Cursor? && reply.next.text != "" && stretch != [])
    ensures PageOf(reply, limit) == Success(TimelinePage(Reverse(Shown(stretch)), if reply.next.End? then None else Some(reply.next.text)))
  {
    WiresValid(stretch);
    hide Wire, Stamp, ValidEntry, EntryOf;
    assert forall w | w in reply.data.value :: ValidEntry(w);
    assert PageOf(reply, limit).value.entries == Reverse(Shown(stretch));
  }

  /** An honest reply is read as exactly its events, newest first. */
  lemma {:induction false} ReadsReply(reply: Reply, log: seq<Event>, limit: nat, offset: string -> nat, at: nat)
    requires AllProper(log) && at <= |log| && Replies(reply, log, limit, offset, at)
    ensures var size := |reply.data.value|;
            PageOf(reply, limit) == Success(TimelinePage(Reverse(Shown(log))[at..at + size], if reply.next.End? then None else Some(reply.next.text)))
  {
    hide Wire, Stamp, PageOf;
    var size, end := |reply.data.value|, |log| - at;
    ReadsStretch(reply, log[end - size..end], limit);
    assert Reverse(Shown(log[end - size..end])) == Reverse(Shown(log))[at..at + size];
  }

  lemma {:induction false} WireServes(session: Session, log: seq<Event>, offset: string -> nat)
    requires AllProper(log) && Honest(session, log, offset)
    ensures Serves(session, Reverse(Shown(log)), offset)
  {
    forall i: nat, cursor: Option<string> | At(offset, cursor) <= |log|
      ensures var page := PageOf(session(i, cursor), PAGE_SIZE);
              page.Success? && ServesPage(page.value, Reverse(Shown(log)), offset, At(offset, cursor))
    {
      ReadsReply(session(i, cursor), log, 100, offset, At(offset, cursor));
      hide PageOf, Shown, Wire, WireOf;
    }
  }

  // ---- The answer, from the events

  /** The user message with the submitted identity. */
  predicate Carries(e: Event, messageId: string) {
    e.ItemAdded? && e.thing.kind == "userMessage" && e.thing.clientId == Some(messageId)
  }

  predicate HasText(e: Event, text: string)
    requires e.ItemAdded?
  {
    e.thing.content == Some([Part(Some("text"), Some(text))])
  }

  predicate StartsTurn(e: Event, p: Publication) {
    e.TurnStarted? && p.turn == Some(e.turn)
  }

  predicate EndsTurn(e: Event, p: Publication) {
    e.TurnCompleted? && p.turn == Some(e.turn)
  }

  function NewestOf(log: seq<Event>): Option<HistoryBoundary> {
    if log == [] then None else Some(Stamp(log[|log| - 1]))
  }

  /** k is the last event after the boundary with the identity. */
  predicate LastCarrier(log: seq<Event>, m: nat, p: Publication, k: nat) {
    m <= k < |log| && Carries(log[k], p.messageId) && forall i :: k < i < |log| ==> !Carries(log[i], p.messageId)
  }

  predicate FirstEnding(log: seq<Event>, m: nat, p: Publication, k: nat) {
    m <= k < |log| && EndsTurn(log[k], p) && forall i :: m <= i < k ==> !EndsTurn(log[i], p)
  }

  function Told(log: seq<Event>, status: Status): Result<Evidence, Fault> {
    Success(Evidence(status, if status == Unavailable then None else NewestOf(log)))
  }

  /**
   * The events after the first m decide: the last one with the identity, and without one the first completion
   * of the turn; with no boundary and no start of the turn in all of the log, nothing is known.
   */
  ghost predicate Verdict(log: seq<Event>, m: nat, p: Publication, r: Result<Evidence, Fault>) {
    if exists k: nat :: LastCarrier(log, m, p, k) then
      exists k: nat :: LastCarrier(log, m, p, k)
        && r == (if !HasText(log[k], p.text) then Failure(DifferentMessage)
                 else if p.turn.Some? && log[k].turn != p.turn.value then Failure(DifferentTurn)
                 else Told(log, Received))
    else if m == 0 && forall i :: 0 <= i < |log| ==> !StartsTurn(log[i], p) then r == Told(log, Unavailable)
    else if exists k: nat :: FirstEnding(log, m, p, k) then
      exists k: nat :: FirstEnding(log, m, p, k) && r == Told(log, if log[k].ending.Interrupted? then Status.Interrupted else Missing)
    else r == Told(log, Pending)
  }

  /** The boundary is the last of the first m events, or there is none and m is 0. */
  predicate AnchoredAt(log: seq<Event>, p: Publication, m: nat) {
    m <= |log| && if m == 0 then p.boundary.None? else p.boundary == Some(Stamp(log[m - 1]))
  }

  lemma EventsOrdered(log: seq<Event>, p: Publication, m: nat)
    requires OrderedEvents(log)
    ensures OrderedLog(Shown(log)) && (AnchoredAt(log, p, m) <==> Anchored(Shown(log), p, m))
  {
    hide Stamp, Wire;
    forall i, j | 0 <= i < j < |log| ensures Stamp(log[i]).key != Stamp(log[j]).key && Stamp(log[i]).position <= Stamp(log[j]).position {
      StampsDiffer(log[i], log[j]);
      StampsDiffer(log[j], log[i]);
    }
  }

  lemma StampsDiffer(d: Event, e: Event)
    ensures Stamp(d).position == d.position && (Stamp(d) != Stamp(e) ==> Stamp(d).key != Stamp(e).key)
  {
  }

  lemma EventMeans(e: Event, p: Publication)
    requires Proper(e)
    ensures var n := Entry(Wire(e), Stamp(e));
            && (Identified(n, p) <==> Carries(e, p.messageId)) && (Starts(n, p) <==> StartsTurn(e, p)) && (Completes(n, p) <==> EndsTurn(e, p))
            && (EndsTurn(e, p) ==> StatusOf(n) == if e.ending.Interrupted? then Status.Interrupted else Missing)
            && (Carries(e, p.messageId) ==> n.native.item.Some? && (SameContent(n.native.item.value, p.text) <==> HasText(e, p.text))
                                            && n.native.turn == Some(e.turn))
            && !(Carries(e, p.messageId) && (StartsTurn(e, p) || EndsTurn(e, p)))
  {
    if e.ItemAdded? && e.thing.content.Some? && |e.thing.content.value| == 1 {
      assert e.thing.content.value == [e.thing.content.value[0]];
    }
  }

  predicate NoneCarries(log: seq<Event>, p: Publication) {
    forall i :: 0 <= i < |log| ==> !Carries(log[i], p.messageId)
  }

  predicate NoneStarts(log: seq<Event>, p: Publication) {
    forall i :: 0 <= i < |log| ==> !StartsTurn(log[i], p)
  }

  /** j is where the turn first ends, or the length of the log. */
  predicate Ends(log: seq<Event>, p: Publication, j: nat) {
    j <= |log| && (forall i :: 0 <= i < j ==> !EndsTurn(log[i], p)) && (j < |log| ==> EndsTurn(log[j], p))
  }

  function Ended(e: Event): Completion
    requires e.TurnCompleted?
  {
    if e.ending.Interrupted? then Status.Interrupted else Missing
  }

  function Found(e: Event, p: Publication): Result<Status, Fault>
    requires e.ItemAdded?
  {
    if !HasText(e, p.text) then Failure(DifferentMessage)
    else if p.turn.Some? && e.turn != p.turn.value then Failure(DifferentTurn)
    else Success(Received)
  }

  lemma InspectsEvent(e: Event, p: Publication, s: Progress)
    requires Proper(e) && p.boundary.None?
    ensures Inspect(Entry(Wire(e), Stamp(e)), p, s) ==
            if Carries(e, p.messageId) then Settled(Found(e, p))
            else Passed(Progress(if EndsTurn(e, p) then Some(Ended(e)) else s.completion, s.started || StartsTurn(e, p)))
  {
    EventMeans(e, p);
  }

  function NewestFirst(log: seq<Event>): seq<Entry> {
    Reverse(Shown(log))
  }

  lemma WalkStep(log: seq<Event>, p: Publication, s: Progress)
    requires AllProper(log) && p.boundary.None? && log != []
    ensures var init, last := log[..|log| - 1], log[|log| - 1];
            Walk(NewestFirst(log), p, s) ==
            if Carries(last, p.messageId) then Settled(Found(last, p))
            else Walk(NewestFirst(init), p, Progress(if EndsTurn(last, p) then Some(Ended(last)) else s.completion, s.started || StartsTurn(last, p)))
  {
    var init, last := log[..|log| - 1], log[|log| - 1];
    var es := NewestFirst(log);
    assert es[0] == Entry(Wire(last), Stamp(last));
    assert es[1..] == NewestFirst(init);
    InspectsEvent(last, p, s);
    hide Carries, StartsTurn, EndsTurn, Wire, Stamp, Inspect, NewestFirst;
  }

  /** Reading the events newest first finds the last carrier, or else the first end and whether the turn started. */
  lemma {:induction false} WalksEvents(log: seq<Event>, p: Publication, s: Progress) returns (k: nat, j: nat)
    requires AllProper(log) && p.boundary.None?
    ensures k < |log| ==> LastCarrier(log, 0, p, k) && Walk(NewestFirst(log), p, s) == Settled(Found(log[k], p))
    ensures k >= |log| ==>
              && NoneCarries(log, p) && Ends(log, p, j)
              && Walk(NewestFirst(log), p, s)
                 == Passed(Progress(if j < |log| then Some(Ended(log[j])) else s.completion, s.started || !NoneStarts(log, p)))
  {
    k, j := |log|, |log|;
    if log != [] {
      var init, last := log[..|log| - 1], log[|log| - 1];
      WalkStep(log, p, s);
      assert init + [last] == log;
      if Carries(last, p.messageId) {
        k := |log| - 1;
      } else {
        hide Carries, StartsTurn, EndsTurn, Walk, NewestFirst, Found;
        k, j := WalksEvents(init, p, Progress(if EndsTurn(last, p) then Some(Ended(last)) else s.completion, s.started || StartsTurn(last, p)));
        hide LastCarrier, NoneCarries, NoneStarts, Ends;
        if k < |init| {
          SnocCarrier(init, last, p, k);
        } else {
          k := |log|;
          SnocStarts(init, last, p);
          SnocNone(init, last, p);
          j := SnocEnds(init, last, p, j);
        }
      }
    }
  }

  lemma SnocCarrier(log: seq<Event>, e: Event, p: Publication, k: nat)
    requires LastCarrier(log, 0, p, k) && !Carries(e, p.messageId)
    ensures LastCarrier(log + [e], 0, p, k)
  {
    hide Carries;
  }

  lemma SnocNone(log: seq<Event>, e: Event, p: Publication)
    requires NoneCarries(log, p) && !Carries(e, p.messageId)
    ensures NoneCarries(log + [e], p)
  {
    hide Carries;
  }

  lemma SnocEnds(log: seq<Event>, e: Event, p: Publication, j: nat) returns (i: nat)
    requires Ends(log, p, j)
    ensures Ends(log + [e], p, i) && if j < |log| then i == j else i == if EndsTurn(e, p) then |log| else |log| + 1
  {
    hide EndsTurn;
    i := if j == |log| && !EndsTurn(e, p) then |log| + 1 else j;
  }

  lemma SnocStarts(log: seq<Event>, e: Event, p: Publication)
    ensures NoneStarts(log + [e], p) <==> NoneStarts(log, p) && !StartsTurn(e, p)
  {
    hide StartsTurn;
    if NoneStarts(log + [e], p) {
      forall i | 0 <= i < |log| ensures !StartsTurn(log[i], p) { assert (log + [e])[i] == log[i]; }
      assert (log + [e])[|log|] == e;
    }
  }

  lemma ReceiptOfNewer(log: seq<Event>, p: Publication, m: nat)
    requires OrderedEvents(log) && AnchoredAt(log, p, m)
    ensures ReceiptOn(Shown(log), p) == match Judge(Shown(log[m..]), p, m == 0)
                                        case Failure(f) => Failure(f)
                                        case Success(status) => Told(log, status)
  {
    EventsOrdered(log, p, m);
    ShownNewest(log);
    hide Stamp, Wire, OrderedEvents, OrderedLog, Judge, Conclusion;
    AnchoredReceipt(Shown(log), p, m);
    assert Shown(log)[m..] == Shown(log[m..]);
  }

  lemma JudgesEvents(log: seq<Event>, p: Publication, whole: bool) returns (k: nat, j: nat)
    requires AllProper(log)
    ensures k < |log| ==> LastCarrier(log, 0, p, k) && Judge(Shown(log), p, whole) == Found(log[k], p)
    ensures k >= |log| ==>
              && NoneCarries(log, p) && Ends(log, p, j)
              && Judge(Shown(log), p, whole)
                 == Success(if whole && NoneStarts(log, p) then Unavailable else if j < |log| then Ended(log[j]) else Pending)
  {
    hide Carries, StartsTurn, EndsTurn, Stamp, Wire, NoneCarries, LastCarrier, Ends, NoneStarts, Found, Walk;
    var q := p.(boundary := None);
    k, j := WalksEvents(log, q, START);
    assert Reverse(Shown(log)) == NewestFirst(log);
    TurnOnly(log, p);
    if k < |log| { CarrierItem(log, p, k); }
  }

  lemma CarrierItem(log: seq<Event>, p: Publication, k: nat)
    requires LastCarrier(log, 0, p, k)
    ensures k < |log| && log[k].ItemAdded?
  {
  }

  /** The reading of a whole ordered log is the verdict of its events. */
  lemma {:induction false} VerdictOfLog(log: seq<Event>, p: Publication, m: nat)
    requires AllProper(log) && OrderedEvents(log) && AnchoredAt(log, p, m)
    ensures Verdict(log, m, p, ReceiptOn(Shown(log), p))
  {
    ReceiptOfNewer(log, p, m);
    var newer := log[m..];
    var k, j := JudgesEvents(newer, p, m == 0);
    if m == 0 { assert newer == log; }
    hide Verdict, ReceiptOn, Judge, Shown, OrderedEvents, LastCarrier, Ends, NoneCarries, NoneStarts, Found;
    if k < |newer| {
      CarrierVerdict(log, m, p, k, ReceiptOn(Shown(log), p));
    } else {
      OtherVerdict(log, m, p, j, ReceiptOn(Shown(log), p));
    }
  }

  lemma CarrierVerdict(log: seq<Event>, m: nat, p: Publication, k: nat, r: Result<Evidence, Fault>)
    requires m <= |log| && LastCarrier(log[m..], 0, p, k)
    requires r == match Found(log[m + k], p) case Failure(f) => Failure(f) case Success(status) => Told(log, status)
    ensures Verdict(log, m, p, r)
  {
    hide Carries, LastCarrier;
    CarrierAfter(log, m, p, k);
  }

  lemma OtherVerdict(log: seq<Event>, m: nat, p: Publication, j: nat, r: Result<Evidence, Fault>)
    requires m <= |log| && NoneCarries(log[m..], p) && Ends(log[m..], p, j)
    requires r == Told(log, if m == 0 && NoneStarts(log, p) then Unavailable else if m + j < |log| then Ended(log[m + j]) else Pending)
    ensures Verdict(log, m, p, r)
  {
    hide LastCarrier, FirstEnding, Ends, NoneCarries, EndsTurn, StartsTurn;
    NoCarrierAfter(log, m, p);
    EndAfter(log, m, p, j);
  }

  lemma ShownNewest(log: seq<Event>)
    ensures NewestOf(log) == if log == [] then None else Some(Shown(log)[|log| - 1].boundary)
  {
  }

  lemma TurnOnly(log: seq<Event>, p: Publication)
    ensures var q := p.(boundary := None);
            && (NoneCarries(log, q) <==> NoneCarries(log, p)) && (NoneStarts(log, q) <==> NoneStarts(log, p))
            && (forall j: nat :: Ends(log, q, j) <==> Ends(log, p, j)) && (forall k: nat :: LastCarrier(log, 0, q, k) <==> LastCarrier(log, 0, p, k))
            && forall e: Event :: e.ItemAdded? ==> Found(e, q) == Found(e, p)
  {
    assert forall e: Event :: StartsTurn(e, p.(boundary := None)) == StartsTurn(e, p) && EndsTurn(e, p.(boundary := None)) == EndsTurn(e, p);
    hide StartsTurn, EndsTurn, Carries;
  }

  lemma CarrierAfter(log: seq<Event>, m: nat, p: Publication, k: nat)
    requires m <= |log| && LastCarrier(log[m..], 0, p, k)
    ensures LastCarrier(log, m, p, m + k) && forall i: nat :: LastCarrier(log, m, p, i) ==> i == m + k
  {
    hide Carries;
    forall i | m + k < i < |log| ensures !Carries(log[i], p.messageId) {
      assert log[m..][i - m] == log[i];
    }
  }

  lemma NoCarrierAfter(log: seq<Event>, m: nat, p: Publication)
    requires m <= |log| && NoneCarries(log[m..], p)
    ensures forall k: nat :: !LastCarrier(log, m, p, k)
  {
    hide Carries;
    forall k: nat | m <= k < |log| ensures !Carries(log[k], p.messageId) {
      assert log[m..][k - m] == log[k];
    }
  }

  lemma EndAfter(log: seq<Event>, m: nat, p: Publication, j: nat)
    requires m <= |log| && Ends(log[m..], p, j)
    ensures m + j < |log| ==> FirstEnding(log, m, p, m + j)
    ensures forall i: nat :: FirstEnding(log, m, p, i) ==> i == m + j < |log|
  {
    hide EndsTurn;
    forall i | m <= i < m + j ensures !EndsTurn(log[i], p) {
      assert log[m..][i - m] == log[i];
    }
  }

  // ---- The search against an honest server

  /**
   * The answer of a search is the verdict of the events. The page bound can stop it only when at least 100
   * events are newer than the boundary.
   */
  lemma {:induction false} WireReceipt(session: Session, p: Publication, pages: seq<TimelinePage>, r: Result<Evidence, Fault>,
                                       log: seq<Event>, offset: string -> nat, m: nat)
    requires Reports(session, p, pages, r)
    requires AllProper(log) && OrderedEvents(log) && Honest(session, log, offset) && AnchoredAt(log, p, m)
    ensures Verdict(log, m, p, r) || (r == Failure(Unbounded) && |log| - m >= 100)
  {
    hide Verdict, Honest, Reports, OrderedEvents, ReceiptOn, Stamp;
    WireServes(session, log, offset);
    EventsOrdered(log, p, m);
    HonestReceipt(session, p, pages, r, Shown(log), offset, m);
    VerdictOfLog(log, p, m);
  }

  /** A boundary captured before the submission anchors the search in every later log. */
  lemma {:induction false} CaptureAnchors(reply: Reply, log: seq<Event>, offset: string -> nat, later: seq<Event>)
    requires AllProper(log) && Replies(reply, log, 1, offset, 0) && (log != [] ==> reply.data.value != [])
    ensures PageOf(reply, 1).Success?
    ensures var page := PageOf(reply, 1).value;
            forall p: Publication :: p.boundary == (if page.entries == [] then None else Some(page.entries[0].boundary)) ==> AnchoredAt(log + later, p, |log|)
  {
    ReadsReply(reply, log, 1, offset, 0);
    hide PageOf, Wire, Replies, AllProper;
    if log != [] {
      assert (log + later)[|log| - 1] == log[|log| - 1];
      assert Reverse(Shown(log))[0] == Shown(log)[|log| - 1];
    }
    hide Stamp;
  }

  /** One check: the log as it then stood, and what was looked for and answered. */
  datatype Check = Check(length: nat, session: Session, offset: string -> nat, sought: Publication, answer: Result<Evidence, Fault>)

  ghost predicate Answered(log: seq<Event>, c: Check) {
    && c.length <= |log| && Honest(c.session, log[..c.length], c.offset) && c.answer != Failure(Unbounded)
    && exists pages :: Reports(c.session, c.sought, pages, c.answer)
  }

  /** The next check of a message without an answer looks from where this one ended. */
  predicate GoesOn(c: Check, d: Check) {
    && c.length <= d.length && c.answer.Success? && c.answer.value.status in {Pending, Unavailable}
    && d.sought == c.sought.(boundary := c.answer.value.boundary, initializing := false)
  }

  ghost predicate Rechecked(log: seq<Event>, checks: seq<Check>) {
    && checks != [] && Answered(log, checks[0])
    && (|checks| > 1 ==> GoesOn(checks[0], checks[1]) && Rechecked(log, checks[1..]))
  }

  function Lengths(checks: seq<Check>): seq<nat> {
    if checks == [] then [] else [checks[0].length] + Lengths(checks[1..])
  }

  lemma {:induction false} LengthsGrow(log: seq<Event>, checks: seq<Check>)
    requires Rechecked(log, checks)
    ensures |Lengths(checks)| == |checks| && Within(Shown(log), Lengths(checks)) && Growing(checks[0].length, Lengths(checks))
    ensures Lengths(checks)[0] == checks[0].length && Lengths(checks)[|checks| - 1] == checks[|checks| - 1].length
  {
    if |checks| > 1 {
      LengthsGrow(log, checks[1..]);
      hide *;
      RecheckedNext(log, checks);
      LengthAdded(Shown(log), checks[0].length, Lengths(checks[1..]));
    } else {
      hide Honest, Reports;
      assert Lengths(checks) == [checks[0].length];
    }
  }

  lemma RecheckedNext(log: seq<Event>, checks: seq<Check>)
    requires Rechecked(log, checks) && |checks| > 1
    ensures Rechecked(log, checks[1..]) && checks[0].length <= checks[1].length && checks[0].length <= |log|
    ensures Lengths(checks) == [checks[0].length] + Lengths(checks[1..])
  {
    hide Honest, Reports;
  }

  lemma LengthAdded(log: seq<Entry>, first: nat, lengths: seq<nat>)
    requires lengths != [] && first <= lengths[0] && first <= |log| && Within(log, lengths) && Growing(lengths[0], lengths)
    ensures Within(log, [first] + lengths) && Growing(first, [first] + lengths)
  {
    var all := [first] + lengths;
    forall i | 0 < i < |all| ensures all[i] == lengths[i - 1] && first <= all[i] {
      assert i - 1 == 0 || lengths[0] <= lengths[i - 1];
    }
  }

  lemma AnswersLog(log: seq<Event>, c: Check, m: nat)
    requires AllProper(log) && OrderedEvents(log) && Answered(log, c) && AnchoredAt(log[..c.length], c.sought, m)
    ensures c.answer == ReceiptOn(Shown(log)[..c.length], c.sought)
    ensures OrderedLog(Shown(log)) && Anchored(Shown(log)[..c.length], c.sought, m)
  {
    hide Honest, Reports, Stamp, Wire, ReceiptOn;
    var pages :| Reports(c.session, c.sought, pages, c.answer);
    var part := log[..c.length];
    PartOrdered(log, c.length);
    WireServes(c.session, part, c.offset);
    EventsOrdered(part, c.sought, m);
    EventsOrdered(log, c.sought, m);
    hide OrderedLog, OrderedEvents;
    HonestReceipt(c.session, c.sought, pages, c.answer, Shown(part), c.offset, m);
    assert Shown(part) == Shown(log)[..c.length];
  }

  lemma PartOrdered(log: seq<Event>, n: nat)
    requires AllProper(log) && OrderedEvents(log) && n <= |log|
    ensures AllProper(log[..n]) && OrderedEvents(log[..n])
  {
    hide Stamp;
  }

  lemma {:induction false} RechecksAre(log: seq<Event>, checks: seq<Check>, m: nat)
    requires AllProper(log) && OrderedEvents(log) && Rechecked(log, checks)
    requires m <= checks[0].length && AnchoredAt(log[..checks[0].length], checks[0].sought, m)
    ensures Lengths(checks) != [] && Within(Shown(log), Lengths(checks))
    ensures Checks(Shown(log), checks[0].sought, Lengths(checks)) == (checks[|checks| - 1].answer, checks[|checks| - 1].length)
  {
    var c := checks[0];
    AnswersLog(log, c, m);
    LengthsGrow(log, checks);
    hide Answered, AnchoredAt, ReceiptOn, OrderedLog, Judge, Within, Growing;
    if |checks| > 1 {
      var d := checks[1];
      LengthsGrow(log, checks[1..]);
      SecondLength(log, checks);
      var k := MovedAnchor(Shown(log), c.sought, m, c.length, d.length, d.sought);
      MovesEvents(log, d, k);
      RechecksAre(log, checks[1..], k);
    }
  }

  lemma SecondLength(log: seq<Event>, checks: seq<Check>)
    requires |checks| > 1 && Rechecked(log, checks)
    ensures checks[0].length <= checks[1].length <= |log| && Lengths(checks)[1..] == Lengths(checks[1..])
  {
    hide Honest, Reports;
    assert Rechecked(log, checks[1..]);
  }

  lemma MovesEvents(log: seq<Event>, d: Check, k: nat)
    requires AllProper(log) && OrderedEvents(log) && d.length <= |log| && Anchored(Shown(log)[..d.length], d.sought, k)
    ensures AnchoredAt(log[..d.length], d.sought, k)
  {
    PartOrdered(log, d.length);
    EventsOrdered(log[..d.length], d.sought, k);
    assert Shown(log[..d.length]) == Shown(log)[..d.length];
  }

  /**
   * However often a message is looked for, each time from the boundary the last check left, the last answer is
   * the verdict of all events after its original boundary.
   */
  lemma {:induction false} RecheckedVerdict(log: seq<Event>, checks: seq<Check>, m: nat)
    requires AllProper(log) && OrderedEvents(log) && Rechecked(log, checks)
    requires m <= checks[0].length && AnchoredAt(log[..checks[0].length], checks[0].sought, m)
    ensures var last := checks[|checks| - 1]; last.length <= |log| && Verdict(log[..last.length], m, checks[0].sought, last.answer)
  {
    var c, last := checks[0], checks[|checks| - 1];
    RechecksAre(log, checks, m);
    LengthsGrow(log, checks);
    AnswersLog(log, c, m);
    hide Rechecked, Verdict, ReceiptOn, Lengths, Checks, Stamp;
    IncrementalEqualsRescan(Shown(log), c.sought, m, Lengths(checks));
    var n := last.length;
    assert Shown(log[..n]) == Shown(log)[..n];
    PartOrdered(log, n);
    assert AnchoredAt(log[..n], c.sought, m);
    VerdictOfLog(log[..n], c.sought, m);
  }

  /** A message that is recorded after the boundary is never passed over by the last check. */
  lemma {:induction false} RecordedIsFound(log: seq<Event>, checks: seq<Check>, m: nat, i: nat)
    requires AllProper(log) && OrderedEvents(log) && Rechecked(log, checks)
    requires m <= checks[0].length && AnchoredAt(log[..checks[0].length], checks[0].sought, m)
    requires m <= i < checks[|checks| - 1].length <= |log| && Carries(log[i], checks[0].sought.messageId)
    ensures var r := checks[|checks| - 1].answer;
            if r.Success? then r.value.status == Received else r.error == DifferentMessage || r.error == DifferentTurn
  {
    RecheckedVerdict(log, checks, m);
    var part, p := log[..checks[|checks| - 1].length], checks[0].sought;
    hide Rechecked, Carries, OrderedEvents;
    var k := LastOne(part, m, p, i);
  }

  lemma {:induction false} LastOne(log: seq<Event>, m: nat, p: Publication, i: nat) returns (k: nat)
    requires m <= i < |log| && Carries(log[i], p.messageId)
    ensures LastCarrier(log, m, p, k)
    decreases |log| - i
  {
    hide Carries;
    if j: nat :| i < j < |log| && Carries(log[j], p.messageId) {
      k := LastOne(log, m, p, j);
    } else {
      k := i;
    }
  }
}

/**
 * CodexTimeline.cs: looking for a submitted message in the native history. The history is an
 * append-only log that the server pages newest first. Wire values are taken after JSON decoding;
 * a field that is absent or of the wrong JSON type is None.
 */
module CodexTimeline {
  import opened Prelude

  const PAGE_SIZE := 100
  const PAGE_BOUND := 100
  const MAX_WIRE_INTEGER := 9007199254740991

  // ---- Wire values

  datatype Part = Part(kind: Option<string>, text: Option<string>)
  datatype Item = Item(id: Option<string>, kind: Option<string>, clientId: Option<string>, content: Option<seq<Part>>)
  datatype WireEntry = WireEntry(position: Option<int>, kind: Option<string>, turn: Option<string>,
                                 item: Option<Item>, status: Option<string>)
  datatype Next = Absent | End | Cursor(text: string) | Malformed
  datatype Reply = Unsupported | Rejected | Answer(data: Option<seq<WireEntry>>, next: Next)

  /** The server's reply to the n-th page request of one search, for the cursor it carries. */
  type Session = (nat, Option<string>) -> Reply

  // ---- Values the adapter keeps

  /** The source quotes these four parts into one string; the quoting is injective. */
  datatype Key = Key(position: int, kind: string, turn: Option<string>, item: Option<string>)
  datatype HistoryBoundary = HistoryBoundary(position: int, key: Key)
  datatype Entry = Entry(native: WireEntry, boundary: HistoryBoundary)
  datatype TimelinePage = TimelinePage(entries: seq<Entry>, next: Option<string>)
  datatype Publication = Publication(turn: Option<string>, text: string, messageId: string,
                                     boundary: Option<HistoryBoundary>, initializing: bool)
  datatype Status = Received | Pending | Interrupted | Missing | Unavailable
  datatype Evidence = Evidence(status: Status, boundary: Option<HistoryBoundary>)
  datatype Fault =
    | UnavailableMethod | RequestFailed | InvalidPage | InvalidEntry | InvalidOrder | InvalidCursor
    | LostBoundary | DifferentMessage | DifferentTurn | Unbounded

  // ---- One page

  predicate NonEmpty(text: Option<string>) {
    text.Some? && text.value != ""
  }

  predicate HasItem(kind: string) {
    kind == "item" || kind == "realtime"
  }

  predicate ValidEntry(w: WireEntry) {
    && w.position.Some? && 0 <= w.position.value <= MAX_WIRE_INTEGER
    && w.kind.Some? && w.kind.value in {"item", "realtime", "turnStarted", "turnCompleted"}
    && (w.kind.value != "realtime" ==> NonEmpty(w.turn))
    && (HasItem(w.kind.value) ==> w.item.Some? && NonEmpty(w.item.value.id) && w.item.value.kind.Some?)
    && (w.kind.value == "turnCompleted" ==> w.status.Some? && w.status.value in {"completed", "interrupted", "failed"})
  }

  function EntryOf(w: WireEntry): Entry
    requires ValidEntry(w)
  {
    var item := if HasItem(w.kind.value) then w.item.value.id else None;
    Entry(w, HistoryBoundary(w.position.value, Key(w.position.value, w.kind.value, w.turn, item)))
  }

  predicate ValidHeader(reply: Reply, limit: nat)
    requires reply.Answer?
  {
    && reply.data.Some? && |reply.data.value| <= limit
    && (reply.next.End? || (reply.next.Cursor? && reply.next.text != "" && reply.data.value != []))
  }

  /** What a reply means as a page: the entries newest first, or the reason it is refused. */
  function PageOf(reply: Reply, limit: nat): Result<TimelinePage, Fault> {
    if reply.Unsupported? then Failure(UnavailableMethod)
    else if reply.Rejected? then Failure(RequestFailed)
    else if !ValidHeader(reply, limit) then Failure(InvalidPage)
    else if exists w | w in reply.data.value :: !ValidEntry(w) then Failure(InvalidEntry)
    else
      var newest := Reverse(reply.data.value);
      Success(TimelinePage(seq(|newest|, i requires 0 <= i < |newest| => EntryOf(newest[i])),
                           if reply.next.End? then None else Some(reply.next.text)))
  }

  method Page(reply: Reply, limit: nat) returns (r: Result<TimelinePage, Fault>)
    ensures r == PageOf(reply, limit)
  {
    match reply
    case Unsupported => return Failure(UnavailableMethod);
    case Rejected => return Failure(RequestFailed);
    case Answer(data, next) =>
      if data.None? || |data.value| > limit || !(next.End? || (next.Cursor? && next.text != "" && data.value != [])) {
        return Failure(InvalidPage);
      }
      var entries: seq<Entry> := [];
      var index := |data.value|;
      while index > 0
        invariant 0 <= index <= |data.value| && |entries| == |data.value| - index
        invariant forall k :: index <= k < |data.value| ==> ValidEntry(data.value[k])
        invariant forall k :: 0 <= k < |entries| ==> entries[k] == EntryOf(data.value[|data.value| - 1 - k])
      {
        index := index - 1;
        if !ValidEntry(data.value[index]) {
          return Failure(InvalidEntry);
        }
        entries := entries + [EntryOf(data.value[index])];
      }
      var page := TimelinePage(entries, if next.End? then None else Some(next.text));
      assert PageOf(reply, limit).Success? && page.entries == PageOf(reply, limit).value.entries;
      return Success(page);
  }

  /**
   * The boundary from which a message about to be submitted will be looked for: the newest entry, if any. A
   * thread without a first message has no timeline yet; then the flag says that its history is initializing.
   */
  method Boundary(reply: Reply, unmaterialized: bool) returns (r: Result<(Option<HistoryBoundary>, bool), Fault>)
    ensures r == match PageOf(reply, 1)
                 case Success(page) => Success((if page.entries == [] then None else Some(page.entries[0].boundary), false))
                 case Failure(f) => if f == UnavailableMethod && unmaterialized then Success((None, true)) else Failure(f)
  {
    var page := Page(reply, 1);
    if page.Success? {
      return Success((if page.value.entries == [] then None else Some(page.value.entries[0].boundary), false));
    }
    if page.error != UnavailableMethod {
      return Failure(page.error);
    }
    return if unmaterialized then Success((None, true)) else Failure(page.error);
  }

  // ---- Reading entries, newest first

  /** What one reading has learned about the publication's turn so far. */
  type Completion = s: Status | s.Interrupted? || s.Missing? witness Missing
  datatype Progress = Progress(completion: Option<Completion>, started: bool)
  datatype Walked = Settled(answer: Result<Status, Fault>) | Passed(progress: Progress)

  const START := Progress(None, false)

  /** A history item that carries the submitted client identity. */
  predicate Identified(e: Entry, p: Publication) {
    && e.native.kind == Some("item") && e.native.item.Some?
    && e.native.item.value.kind == Some("userMessage") && e.native.item.value.clientId == Some(p.messageId)
  }

  predicate SameContent(item: Item, text: string) {
    && NonEmpty(item.id) && item.content.Some? && |item.content.value| == 1
    && item.content.value[0] == Part(Some("text"), Some(text))
  }

  predicate OfTurn(e: Entry, p: Publication) {
    p.turn.Some? && e.native.turn == p.turn
  }

  function Inspect(e: Entry, p: Publication, s: Progress): Walked {
    if p.boundary.Some? && e.boundary.key == p.boundary.value.key then
      Settled(Success(if s.completion.Some? then s.completion.value else Pending))
    else if p.boundary.Some? && e.boundary.position < p.boundary.value.position then Settled(Failure(LostBoundary))
    else if Identified(e, p) then
      if !SameContent(e.native.item.value, p.text) then Settled(Failure(DifferentMessage))
      else if p.turn.Some? && e.native.turn != p.turn then Settled(Failure(DifferentTurn))
      else Settled(Success(Received))
    else if !OfTurn(e, p) then Passed(s)
    else if e.native.kind == Some("turnCompleted") then
      Passed(s.(completion := Some(if e.native.status == Some("interrupted") then Interrupted else Missing)))
    else if e.native.kind == Some("turnStarted") then Passed(s.(started := true))
    else Passed(s)
  }

  function Walk(es: seq<Entry>, p: Publication, s: Progress): Walked {
    if es == [] then Passed(s)
    else
      var first := Inspect(es[0], p, s);
      if first.Settled? then first else Walk(es[1..], p, first.progress)
  }

  lemma {:induction false} WalkConcat(a: seq<Entry>, b: seq<Entry>, p: Publication, s: Progress)
    ensures Walk(a + b, p, s)
         == var w := Walk(a, p, s); if w.Settled? then w else Walk(b, p, w.progress)
  {
    if a == [] {
      assert a + b == b;
    } else {
      assert (a + b)[0] == a[0] && (a + b)[1..] == a[1..] + b;
      if Inspect(a[0], p, s).Passed? {
        WalkConcat(a[1..], b, p, Inspect(a[0], p, s).progress);
      }
    }
  }

  /** The verdict once a reading has joined the boundary or reached the start of history. */
  function Conclusion(es: seq<Entry>, ended: bool, p: Publication): Option<Result<Status, Fault>> {
    match Walk(es, p, START)
    case Settled(answer) => Some(answer)
    case Passed(s) =>
      if !ended then None
      else if p.boundary.Some? then Some(Failure(LostBoundary))
      else if !s.started then Some(Success(Unavailable))
      else Some(Success(if s.completion.Some? then s.completion.value else Pending))
  }

  // ---- The search

  function Entries(pages: seq<TimelinePage>): seq<Entry> {
    Flatten(seq(|pages|, i requires 0 <= i < |pages| => pages[i].entries))
  }

  lemma EntriesSnoc(pages: seq<TimelinePage>, page: TimelinePage)
    ensures Entries(pages + [page]) == Entries(pages) + page.entries
  {
    var lists := seq(|pages|, i requires 0 <= i < |pages| => pages[i].entries);
    var longer := pages + [page];
    assert seq(|longer|, i requires 0 <= i < |longer| => longer[i].entries) == lists + [page.entries];
    FlattenSnoc(lists, page.entries);
  }

  function Keys(es: seq<Entry>): set<Key> {
    set e | e in es :: e.boundary.key
  }

  function LastPosition(es: seq<Entry>): Option<int> {
    if es == [] then None else Some(es[|es| - 1].boundary.position)
  }

  /** Whether an entry may follow those already read: no higher position, no known key. */
  predicate Follows(e: Entry, seen: set<Key>, position: Option<int>) {
    (position.Some? ==> e.boundary.position <= position.value) && e.boundary.key !in seen
  }

  predicate Ordered(es: seq<Entry>) {
    es == [] || var n := |es| - 1; Ordered(es[..n]) && Follows(es[n], Keys(es[..n]), LastPosition(es[..n]))
  }

  lemma {:induction false} OrderedPrefix(a: seq<Entry>, b: seq<Entry>)
    requires Ordered(a + b)
    ensures Ordered(a)
  {
    if b == [] {
      assert a + b == a;
    } else {
      assert (a + b)[..|a + b| - 1] == a + b[..|b| - 1];
      OrderedPrefix(a, b[..|b| - 1]);
    }
  }

  /** Positions never increase and keys never repeat. */
  lemma {:induction false} OrderedMeans(es: seq<Entry>, i: nat, j: nat)
    requires Ordered(es) && i < j < |es|
    ensures es[j].boundary.position <= es[i].boundary.position
    ensures es[i].boundary.key != es[j].boundary.key
  {
    var n := |es| - 1;
    if j < n {
      OrderedMeans(es[..n], i, j);
    } else {
      assert es[..n][i] == es[i] && es[i] in es[..n];
      if i < n - 1 { OrderedMeans(es[..n], i, n - 1); }
    }
  }

  function NextCursor(pages: seq<TimelinePage>): Option<string> {
    if pages == [] then None else pages[|pages| - 1].next
  }

  /** Each page is the reply to the cursor of the page before it. */
  predicate Chain(session: Session, pages: seq<TimelinePage>) {
    pages == [] ||
    var n := |pages| - 1;
    && Chain(session, pages[..n]) && (n > 0 ==> NextCursor(pages[..n]).Some?)
    && PageOf(session(n, NextCursor(pages[..n])), PAGE_SIZE) == Success(pages[n])
  }

  function Cursors(pages: seq<TimelinePage>): set<string> {
    set page | page in pages && page.next.Some? :: page.next.value
  }

  predicate Repeated(pages: seq<TimelinePage>) {
    pages != [] && NextCursor(pages).Some? && NextCursor(pages).value in Cursors(pages[..|pages| - 1])
  }

  function Newest(pages: seq<TimelinePage>): Option<HistoryBoundary> {
    if pages == [] || pages[0].entries == [] then None else Some(pages[0].entries[0].boundary)
  }

  function Concluded(pages: seq<TimelinePage>, p: Publication): Option<Result<Status, Fault>> {
    if pages == [] then None else Conclusion(Entries(pages), NextCursor(pages).None?, p)
  }

  /** Why a search that has not concluded reads no further page. */
  ghost predicate Stopped(session: Session, pages: seq<TimelinePage>, f: Fault) {
    || (f == InvalidCursor && Repeated(pages))
    || (f == Unbounded && |pages| == PAGE_BOUND)
    || (|pages| < PAGE_BOUND && PageOf(session(|pages|, NextCursor(pages)), PAGE_SIZE) == Failure(f))
  }

  /** The outcome of a search that read exactly these pages. */
  ghost predicate Reports(session: Session, p: Publication, pages: seq<TimelinePage>, r: Result<Evidence, Fault>) {
    && Chain(session, pages) && |pages| <= PAGE_BOUND
    && match r
       case Success(e) =>
         && Ordered(Entries(pages)) && Concluded(pages, p) == Some(Success(e.status))
         && e.boundary == (if e.status == Unavailable then None else Newest(pages))
       case Failure(f) =>
         || (f == InvalidOrder && !Ordered(Entries(pages)))
         || (Ordered(Entries(pages)) && Concluded(pages, p) == Some(Failure(f)))
         || (Ordered(Entries(pages)) && Concluded(pages, p) == None && Stopped(session, pages, f))
  }

  /** The first pass over a page: positions and keys against everything read so far. */
  method InOrder(entries: seq<Entry>, known: set<Key>, last: Option<int>, ghost before: seq<Entry>)
    returns (ok: bool, seen: set<Key>, position: Option<int>)
    requires Ordered(before) && known == Keys(before) && last == LastPosition(before)
    ensures ok == Ordered(before + entries)
    ensures ok ==> seen == Keys(before + entries) && position == LastPosition(before + entries)
  {
    hide Ordered, Keys;
    seen, position := known, last;
    assert before + entries[..0] == before;
    for i := 0 to |entries|
      invariant Ordered(before + entries[..i])
      invariant seen == Keys(before + entries[..i]) && position == LastPosition(before + entries[..i])
    {
      var value := entries[i];
      ghost var read := before + entries[..i];
      assert before + entries[..i + 1] == read + [value];
      OrderedSnoc(read, value);
      if (position.Some? && value.boundary.position > position.value) || value.boundary.key in seen {
        assert before + entries == (read + [value]) + entries[i + 1..];
        if Ordered(before + entries) { OrderedPrefix(read + [value], entries[i + 1..]); }
        return false, seen, position;
      }
      KeysSnoc(read, value);
      seen := seen + {value.boundary.key};
      position := Some(value.boundary.position);
    }
    assert entries[..|entries|] == entries;
    ok := true;
  }

  lemma OrderedSnoc(es: seq<Entry>, e: Entry)
    ensures Ordered(es + [e]) == (Ordered(es) && Follows(e, Keys(es), LastPosition(es)))
  {
    assert (es + [e])[..|es|] == es;
  }

  lemma KeysSnoc(es: seq<Entry>, e: Entry)
    ensures Keys(es + [e]) == Keys(es) + {e.boundary.key}
  {
    assert forall x :: x in es + [e] <==> x in es || x == e;
    assert e in es + [e];
  }

  /** The second pass over a page: the boundary, the receipt and the turn's own events. */
  method Read(entries: seq<Entry>, input: Publication, completion0: Option<Completion>, started0: bool)
    returns (answer: Option<Result<Status, Fault>>, completion: Option<Completion>, started: bool)
    ensures Walk(entries, input, Progress(completion0, started0))
         == if answer.Some? then Settled(answer.value) else Passed(Progress(completion, started))
  {
    completion, started := completion0, started0;
    for i := 0 to |entries|
      invariant Walk(entries, input, Progress(completion0, started0)) == Walk(entries[i..], input, Progress(completion, started))
    {
      var value := entries[i];
      if input.boundary.Some? && value.boundary.key == input.boundary.value.key {
        return Some(Success(if completion.Some? then completion.value else Pending)), completion, started;
      }
      if input.boundary.Some? && value.boundary.position < input.boundary.value.position {
        return Some(Failure(LostBoundary)), completion, started;
      }
      if Identified(value, input) {
        if !SameContent(value.native.item.value, input.text) {
          return Some(Failure(DifferentMessage)), completion, started;
        }
        if input.turn.Some? && value.native.turn != input.turn {
          return Some(Failure(DifferentTurn)), completion, started;
        }
        return Some(Success(Received)), completion, started;
      }
      if OfTurn(value, input) {
        if value.native.kind == Some("turnCompleted") {
          completion := Some(if value.native.status == Some("interrupted") then Interrupted else Missing);
        } else if value.native.kind == Some("turnStarted") {
          started := true;
        }
      }
    }
    answer := None;
  }

  /** What the search remembers after reading these pages without an answer. */
  ghost predicate Scanned(session: Session, p: Publication, pages: seq<TimelinePage>, memory: Memory) {
    && Chain(session, pages) && (pages != [] ==> NextCursor(pages).Some?)
    && memory.visited == Cursors(pages)
    && Ordered(Entries(pages)) && memory.seen == Keys(Entries(pages)) && memory.position == LastPosition(Entries(pages))
    && Walk(Entries(pages), p, START) == Passed(memory.progress)
  }

  // A position of None stands for long.MaxValue, above every wire position.
  datatype Memory = Memory(visited: set<string>, seen: set<Key>, position: Option<int>, progress: Progress)

  /** A search that learned nothing had no boundary to come down to, and gives none. */
  predicate Anchors(input: Publication, r: Result<Evidence, Fault>) {
    r.Success? && r.value.status == Unavailable ==> input.boundary.None? && r.value.boundary.None?
  }

  /** One more page: an answer, or what to remember for the next. */
  method ReadPage(session: Session, input: Publication, page: TimelinePage, newest: Option<HistoryBoundary>, memory: Memory,
                  ghost previous: seq<TimelinePage>)
    returns (answer: Option<Result<Evidence, Fault>>, next: Memory)
    requires Scanned(session, input, previous, memory) && Chain(session, previous + [page]) && |previous| < PAGE_BOUND
    requires newest == Newest(previous + [page])
    ensures if answer.Some? then Reports(session, input, previous + [page], answer.value)
            else Scanned(session, input, previous + [page], next)
    ensures answer.Some? ==> Anchors(input, answer.value)
  {
    ghost var pages := previous + [page];
    assert pages[..|previous|] == previous;
    EntriesSnoc(previous, page);
    next := memory;
    var ok, seen, position := InOrder(page.entries, memory.seen, memory.position, Entries(previous));
    if !ok {
      return Some(Failure(InvalidOrder)), next;
    }
    WalkConcat(Entries(previous), page.entries, input, START);
    var status, completion, started := Read(page.entries, input, memory.progress.completion, memory.progress.started);
    if status.Some? {
      SettledIsNotUnavailable(Entries(pages), input, START);
      return Some(match status.value
                  case Failure(f) => Failure(f)
                  case Success(value) => Success(Evidence(value, newest))), next;
    }
    if page.next.None? {
      if input.boundary.Some? {
        return Some(Failure(LostBoundary)), next;
      }
      var value := if !started then Unavailable else if completion.Some? then completion.value else Pending;
      return Some(Success(Evidence(value, if !started then None else newest))), next;
    }
    if page.next.value in memory.visited {
      return Some(Failure(InvalidCursor)), next;
    }
    CursorsSnoc(previous, page);
    return None, Memory(memory.visited + {page.next.value}, seen, position, Progress(completion, started));
  }

  method Receipt(session: Session, input: Publication) returns (r: Result<Evidence, Fault>, ghost pages: seq<TimelinePage>)
    ensures Reports(session, input, pages, r)
    ensures Anchors(input, r)
  {
    var cursor: Option<string> := None;
    var memory := Memory({}, {}, None, START);
    var newest := input.boundary;
    pages := [];
    for pageIndex := 0 to PAGE_BOUND
      invariant |pages| == pageIndex && cursor == NextCursor(pages) && (pageIndex > 0 ==> newest == Newest(pages))
      invariant Scanned(session, input, pages, memory)
    {
      var response := Page(session(pageIndex, cursor), PAGE_SIZE);
      if response.Failure? {
        return Failure(response.error), pages;
      }
      var page := response.value;
      if pageIndex == 0 {
        newest := if page.entries == [] then None else Some(page.entries[0].boundary);
      }
      assert (pages + [page])[..pageIndex] == pages;
      var answer;
      answer, memory := ReadPage(session, input, page, newest, memory, pages);
      pages := pages + [page];
      if answer.Some? {
        return answer.value, pages;
      }
      cursor := page.next;
    }
    return Failure(Unbounded), pages;
  }

  lemma CursorsSnoc(pages: seq<TimelinePage>, page: TimelinePage)
    requires page.next.Some?
    ensures Cursors(pages + [page]) == Cursors(pages) + {page.next.value}
  {
    assert forall x :: x in pages + [page] <==> x in pages || x == page;
    assert page in pages + [page];
  }

  lemma {:induction false} SettledIsNotUnavailable(es: seq<Entry>, p: Publication, s: Progress)
    ensures Walk(es, p, s) != Settled(Success(Unavailable))
  {
    if es != [] && Inspect(es[0], p, s).Passed? {
      SettledIsNotUnavailable(es[1..], p, Inspect(es[0], p, s).progress);
    }
  }
}

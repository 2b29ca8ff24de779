/** What the receipt search of CodexTimeline promises, for arbitrary and for honest servers. */
module TimelineTheorems {
  import opened Prelude
  import opened CodexTimeline

  // ---- Soundness against any server

  predicate Completes(e: Entry, p: Publication) {
    OfTurn(e, p) && e.native.kind == Some("turnCompleted")
  }

  predicate Starts(e: Entry, p: Publication) {
    OfTurn(e, p) && e.native.kind == Some("turnStarted")
  }

  predicate AtBoundary(e: Entry, p: Publication) {
    p.boundary.Some? && e.boundary.key == p.boundary.value.key
  }

  predicate BelowBoundary(e: Entry, p: Publication) {
    p.boundary.Some? && e.boundary.position < p.boundary.value.position
  }

  /** An entry a reading may pass over: newer than the boundary and not the message. */
  predicate Skipped(e: Entry, p: Publication) {
    !AtBoundary(e, p) && !BelowBoundary(e, p) && !Identified(e, p)
  }

  predicate IsReceipt(e: Entry, p: Publication) {
    && Identified(e, p) && SameContent(e.native.item.value, p.text)
    && (p.turn.Some? ==> e.native.turn == p.turn)
  }

  function StatusOf(e: Entry): Completion {
    if e.native.status == Some("interrupted") then Interrupted else Missing
  }

  /** The completion of the turn that the newest-first reading of es leaves standing: its oldest one. */
  function OldestCompletion(es: seq<Entry>, p: Publication, default: Option<Completion>): Option<Completion> {
    if es == [] then default
    else if Completes(es[|es| - 1], p) && !Identified(es[|es| - 1], p) then Some(StatusOf(es[|es| - 1]))
    else OldestCompletion(es[..|es| - 1], p, default)
  }

  predicate AllSkipped(es: seq<Entry>, p: Publication) {
    forall e | e in es :: Skipped(e, p)
  }

  function Summary(es: seq<Entry>, p: Publication, s: Progress): Progress {
    Progress(OldestCompletion(es, p, s.completion), s.started || exists e | e in es :: Starts(e, p) && !Identified(e, p))
  }

  /** A reading stops at the first entry it may not skip; until then it only keeps a summary. */
  lemma {:induction false} WalkSplits(es: seq<Entry>, p: Publication, s: Progress) returns (n: nat)
    ensures n <= |es| && AllSkipped(es[..n], p) && (n < |es| ==> !Skipped(es[n], p))
    ensures Walk(es, p, s) == if n == |es| then Passed(Summary(es, p, s)) else Inspect(es[n], p, Summary(es[..n], p, s))
  {
    if es == [] {
      n := 0;
    } else if !Skipped(es[0], p) {
      n := 0;
      assert es[..0] == [];
    } else {
      var next := Inspect(es[0], p, s).progress;
      var k := WalkSplits(es[1..], p, next);
      n := k + 1;
      assert es[..n] == [es[0]] + es[1..][..k];
      SummaryCons(es[0], es[1..][..k], p, s);
      if n == |es| { assert es[..n] == es && es[1..][..k] == es[1..]; }
    }
  }

  lemma {:induction false} SummaryCons(e: Entry, es: seq<Entry>, p: Publication, s: Progress)
    requires Skipped(e, p)
    ensures Summary([e] + es, p, s) == Summary(es, p, Inspect(e, p, s).progress)
  {
    var next := Inspect(e, p, s).progress;
    OldestCons(e, es, p, s.completion);
    assert forall x :: x in [e] + es <==> x == e || x in es;
  }

  lemma {:induction false} OldestCons(e: Entry, es: seq<Entry>, p: Publication, default: Option<Completion>)
    ensures OldestCompletion([e] + es, p, default)
         == OldestCompletion(es, p, if Completes(e, p) && !Identified(e, p) then Some(StatusOf(e)) else default)
  {
    if es != [] {
      var all := [e] + es;
      assert all[|all| - 1] == es[|es| - 1] && all[..|all| - 1] == [e] + es[..|es| - 1];
      OldestCons(e, es[..|es| - 1], p, default);
    } else {
      assert ([e] + es)[..0] == [];
    }
  }

  /**
   * "Received" is backed by an entry newer than the boundary with that identity, text and turn.
   * Every other verdict means that the search joined the boundary, or reached the start of history
   * when there is none, without meeting the message, and the status is the oldest completion of
   * the turn in between. This holds whatever pages the server returned.
   */
  lemma ReceiptSound(session: Session, p: Publication, pages: seq<TimelinePage>, e: Evidence) returns (n: nat)
    requires Reports(session, p, pages, Success(e))
    ensures n <= |Entries(pages)| && AllSkipped(Entries(pages)[..n], p)
    ensures e.status == Received ==>
      n < |Entries(pages)| && IsReceipt(Entries(pages)[n], p) && !AtBoundary(Entries(pages)[n], p) && !BelowBoundary(Entries(pages)[n], p)
    ensures e.status != Received ==>
      if p.boundary.Some? then n < |Entries(pages)| && AtBoundary(Entries(pages)[n], p)
      else n == |Entries(pages)| && NextCursor(pages).None?
    ensures e.status != Received && e.status != Unavailable ==>
      e.status == var c := OldestCompletion(Entries(pages)[..n], p, None); if c.Some? then c.value else Pending
    ensures e.status == Unavailable ==> p.boundary.None? && e.boundary.None? && forall x | x in Entries(pages) :: !Starts(x, p)
  {
    var es := Entries(pages);
    n := WalkSplits(es, p, START);
    assert es[..|es|] == es;
    SettledIsNotUnavailable(es, p, START);
  }

  /** A search reads at most 100 pages of at most 100 entries each. */
  lemma {:induction false} PagesWithin(session: Session, pages: seq<TimelinePage>, i: nat)
    requires Chain(session, pages) && i < |pages|
    ensures |pages[i].entries| <= 100
  {
    if i < |pages| - 1 {
      PagesWithin(session, pages[..|pages| - 1], i);
    }
  }

  lemma SearchWithin(session: Session, p: Publication, pages: seq<TimelinePage>, r: Result<Evidence, Fault>)
    requires Reports(session, p, pages, r)
    ensures |pages| <= 100 && forall i :: 0 <= i < |pages| ==> |pages[i].entries| <= 100
  {
    forall i: nat | i < |pages| ensures |pages[i].entries| <= 100 {
      PagesWithin(session, pages, i);
    }
  }

  // ---- An honest server pages one append-only log

  /** The log oldest first: positions do not decrease and no key recurs. */
  predicate OrderedLog(log: seq<Entry>) {
    forall i, j :: 0 <= i < j < |log| ==>
      log[i].boundary.position <= log[j].boundary.position && log[i].boundary.key != log[j].boundary.key
  }

  function At(offset: string -> nat, cursor: Option<string>): nat {
    if cursor.None? then 0 else offset(cursor.value)
  }

  predicate ServesPage(page: TimelinePage, newest: seq<Entry>, offset: string -> nat, at: nat)
    requires at <= |newest|
  {
    && at + |page.entries| <= |newest| && page.entries == newest[at..at + |page.entries|]
    && (if page.next.None? then at + |page.entries| == |newest|
        else page.entries != [] && offset(page.next.value) == at + |page.entries|)
  }

  /** Cursors are offsets into the log as it stood when the search began. */
  ghost predicate Serves(session: Session, newest: seq<Entry>, offset: string -> nat) {
    forall i: nat, cursor: Option<string> :: At(offset, cursor) <= |newest| ==>
      var page := PageOf(session(i, cursor), PAGE_SIZE);
      page.Success? && ServesPage(page.value, newest, offset, At(offset, cursor))
  }

  /** The pages read so far are the newest entries of the log, and the next cursor points behind them. */
  predicate Paged(pages: seq<TimelinePage>, newest: seq<Entry>, offset: string -> nat) {
    var n := |Entries(pages)|;
    && n <= |newest| && Entries(pages) == newest[..n]
    && (pages != [] ==> if NextCursor(pages).None? then n == |newest| else At(offset, NextCursor(pages)) == n)
    && (NextCursor(pages).Some? ==> |pages| <= n)
  }

  lemma PagedSnoc(init: seq<TimelinePage>, last: TimelinePage, newest: seq<Entry>, offset: string -> nat)
    requires Paged(init, newest, offset) && (init != [] ==> NextCursor(init).Some?)
    requires ServesPage(last, newest, offset, |Entries(init)|)
    ensures Paged(init + [last], newest, offset)
  {
    hide Entries;
    EntriesSnoc(init, last);
    var n := |Entries(init)|;
    assert newest[..n] + newest[n..n + |last.entries|] == newest[..n + |last.entries|];
  }

  /** One more honest page continues exactly where the pages so far stop. */
  lemma HonestPage(session: Session, init: seq<TimelinePage>, newest: seq<Entry>, offset: string -> nat)
    requires Serves(session, newest, offset) && Paged(init, newest, offset) && (init != [] ==> NextCursor(init).Some?)
    ensures var page := PageOf(session(|init|, NextCursor(init)), PAGE_SIZE);
            page.Success? && ServesPage(page.value, newest, offset, |Entries(init)|)
  {
    assert init == [] ==> |Entries(init)| == 0;
    hide PageOf, Entries;
    assert At(offset, NextCursor(init)) == |Entries(init)|;
  }

  lemma {:induction false} HonestPages(session: Session, pages: seq<TimelinePage>, newest: seq<Entry>, offset: string -> nat)
    requires Serves(session, newest, offset) && Chain(session, pages)
    ensures Paged(pages, newest, offset)
  {
    if pages != [] {
      hide PageOf, Paged, Serves, Entries;
      var init, last := pages[..|pages| - 1], pages[|pages| - 1];
      HonestPages(session, init, newest, offset);
      HonestPage(session, init, newest, offset);
      PagedSnoc(init, last, newest, offset);
      assert pages == init + [last];
    }
  }

  lemma {:induction false} HonestNewest(session: Session, pages: seq<TimelinePage>, newest: seq<Entry>, offset: string -> nat)
    requires Serves(session, newest, offset) && Chain(session, pages) && pages != [] && newest != []
    ensures Newest(pages) == Some(newest[0].boundary)
  {
    var init := pages[..|pages| - 1];
    hide PageOf;
    if init == [] {
      var page := PageOf(session(0, None), PAGE_SIZE);
      assert At(offset, None) == 0 && page.Success? && ServesPage(page.value, newest, offset, 0);
    } else {
      HonestNewest(session, init, newest, offset);
    }
  }

  /** Every cursor met so far lies within what has been read. */
  lemma {:induction false} HonestOffsets(session: Session, pages: seq<TimelinePage>, newest: seq<Entry>, offset: string -> nat)
    requires Serves(session, newest, offset) && Chain(session, pages)
    ensures forall c | c in Cursors(pages) :: offset(c) <= |Entries(pages)|
  {
    if pages != [] {
      hide PageOf, Serves, Entries;
      var init, last := pages[..|pages| - 1], pages[|pages| - 1];
      HonestOffsets(session, init, newest, offset);
      HonestPages(session, pages, newest, offset);
      EntriesSnoc(init, last);
      assert pages == init + [last];
      assert forall c | c in Cursors(pages) :: c in Cursors(init) || last.next == Some(c);
    }
  }

  lemma HonestOrder(log: seq<Entry>, n: nat)
    requires OrderedLog(log) && n <= |log|
    ensures Ordered(Reverse(log)[..n])
  {
    var newest := Reverse(log);
    if n > 0 {
      HonestOrder(log, n - 1);
      var es := newest[..n];
      assert es[..n - 1] == newest[..n - 1];
      assert Keys(es[..n - 1]) !! {es[n - 1].boundary.key};
    }
  }

  lemma HonestCursors(session: Session, pages: seq<TimelinePage>, newest: seq<Entry>, offset: string -> nat)
    requires Serves(session, newest, offset) && Chain(session, pages)
    ensures !Repeated(pages)
  {
    hide PageOf, Serves, Entries;
    if pages != [] && NextCursor(pages).Some? {
      var init, last := pages[..|pages| - 1], pages[|pages| - 1];
      HonestPages(session, init, newest, offset);
      HonestOffsets(session, init, newest, offset);
      HonestPages(session, pages, newest, offset);
      HonestPage(session, init, newest, offset);
      EntriesSnoc(init, last);
      assert pages == init + [last];
    }
  }

  /** What a search of the whole log answers. */
  function ReceiptOn(log: seq<Entry>, p: Publication): Result<Evidence, Fault> {
    match Conclusion(Reverse(log), true, p).value
    case Failure(f) => Failure(f)
    case Success(status) =>
      Success(Evidence(status, if status == Unavailable || log == [] then None else Some(log[|log| - 1].boundary)))
  }

  /** The publication's boundary is the last of the first m entries, or there is none and m is 0. */
  predicate Anchored(log: seq<Entry>, p: Publication, m: nat) {
    m <= |log| && if m == 0 then p.boundary.None? else p.boundary == Some(log[m - 1].boundary)
  }

  /**
   * Against an honest server the search answers as one reading of the whole log. The page bound can
   * stop it only when at least 100 entries are newer than the boundary.
   */
  lemma HonestReceipt(session: Session, p: Publication, pages: seq<TimelinePage>, r: Result<Evidence, Fault>,
                      log: seq<Entry>, offset: string -> nat, m: nat)
    requires Reports(session, p, pages, r)
    requires OrderedLog(log) && Serves(session, Reverse(log), offset) && Anchored(log, p, m)
    ensures r == ReceiptOn(log, p) || (r == Failure(Unbounded) && |log| - m >= PAGE_BOUND)
  {
    hide Walk, PageOf, Ordered;
    HonestPages(session, pages, Reverse(log), offset);
    HonestOrder(log, |Entries(pages)|);
    if Concluded(pages, p).Some? {
      HonestConclusion(session, p, pages, Reverse(log), offset);
      if log == [] { EntriesOfNewest(pages, Reverse(log)); } else { HonestNewest(session, pages, Reverse(log), offset); }
    } else {
      HonestCursors(session, pages, Reverse(log), offset);
      HonestContinues(session, pages, Reverse(log), offset);
      JoinsBoundary(log, p, m, |Entries(pages)|);
    }
  }

  lemma HonestConclusion(session: Session, p: Publication, pages: seq<TimelinePage>, newest: seq<Entry>, offset: string -> nat)
    requires Serves(session, newest, offset) && Chain(session, pages) && Concluded(pages, p).Some?
    ensures Concluded(pages, p) == Conclusion(newest, true, p)
  {
    HonestPages(session, pages, newest, offset);
    var n := |Entries(pages)|;
    if NextCursor(pages).None? {
      assert newest[..n] == newest;
    } else {
      assert newest == newest[..n] + newest[n..];
      WalkConcat(newest[..n], newest[n..], p, START);
    }
  }

  lemma HonestContinues(session: Session, pages: seq<TimelinePage>, newest: seq<Entry>, offset: string -> nat)
    requires Serves(session, newest, offset) && Chain(session, pages) && (pages != [] ==> NextCursor(pages).Some?)
    ensures PageOf(session(|pages|, NextCursor(pages)), PAGE_SIZE).Success?
    ensures NextCursor(pages).Some? ==> |pages| <= |Entries(pages)|
  {
    hide PageOf;
    HonestPages(session, pages, newest, offset);
    HonestPage(session, pages, newest, offset);
  }

  lemma EntriesOfNewest(pages: seq<TimelinePage>, newest: seq<Entry>)
    requires |Entries(pages)| <= |newest|
    ensures newest == [] ==> Newest(pages) == None
  {
    if pages != [] && newest == [] && pages[0].entries != [] {
      FirstEntries(pages);
    }
  }

  lemma {:induction false} FirstEntries(pages: seq<TimelinePage>)
    requires pages != []
    ensures |pages[0].entries| <= |Entries(pages)|
  {
    var init, last := pages[..|pages| - 1], pages[|pages| - 1];
    EntriesSnoc(init, last);
    assert pages == init + [last];
    if init != [] { FirstEntries(init); }
  }

  /** A reading that has passed over n entries without settling has not met the boundary. */
  lemma JoinsBoundary(log: seq<Entry>, p: Publication, m: nat, n: nat)
    requires Anchored(log, p, m) && n <= |log| && Walk(Reverse(log)[..n], p, START).Passed?
    ensures m > 0 ==> n <= |log| - m
  {
    var es := Reverse(log)[..n];
    if m > 0 && n > |log| - m {
      var at := |log| - m;
      assert es == es[..at] + [es[at]] + es[at + 1..];
      WalkConcat(es[..at] + [es[at]], es[at + 1..], p, START);
      WalkConcat(es[..at], [es[at]], p, START);
    }
  }

  // ---- Repeated checks with a moving boundary

  /** The reading of a log segment on its own, without looking for a boundary. */
  function Judge(segment: seq<Entry>, p: Publication, whole: bool): Result<Status, Fault> {
    match Walk(Reverse(segment), p.(boundary := None), START)
    case Settled(answer) => answer
    case Passed(s) =>
      if whole && !s.started then Success(Unavailable)
      else Success(if s.completion.Some? then s.completion.value else Pending)
  }

  predicate Newer(es: seq<Entry>, p: Publication) {
    forall i :: 0 <= i < |es| ==> !AtBoundary(es[i], p) && !BelowBoundary(es[i], p)
  }

  lemma {:induction false} WalkUnbounded(es: seq<Entry>, p: Publication, s: Progress)
    requires Newer(es, p)
    ensures Walk(es, p, s) == Walk(es, p.(boundary := None), s)
  {
    if es != [] {
      assert Inspect(es[0], p, s) == Inspect(es[0], p.(boundary := None), s);
      if Inspect(es[0], p, s).Passed? { WalkUnbounded(es[1..], p, Inspect(es[0], p, s).progress); }
    }
  }

  lemma AnchoredNewer(log: seq<Entry>, p: Publication, m: nat)
    requires OrderedLog(log) && Anchored(log, p, m)
    ensures Newer(Reverse(log[m..]), p)
  {
    var newer := Reverse(log[m..]);
    if m > 0 {
      forall i | 0 <= i < |newer|
        ensures !AtBoundary(newer[i], p) && !BelowBoundary(newer[i], p)
      {
        assert newer[i] == log[|log| - 1 - i];
      }
    }
  }

  /** Only the entries after the boundary matter. */
  lemma AnchoredReceipt(log: seq<Entry>, p: Publication, m: nat)
    requires OrderedLog(log) && Anchored(log, p, m)
    ensures Conclusion(Reverse(log), true, p) == Some(Judge(log[m..], p, m == 0))
  {
    AnchoredNewer(log, p, m);
    hide OrderedLog;
    var newer := Reverse(log[m..]);
    assert log == log[..m] + log[m..];
    ReverseConcat(log[..m], log[m..]);
    WalkConcat(newer, Reverse(log[..m]), p, START);
    WalkUnbounded(newer, p, START);
    hide Newer;
    if m > 0 {
      assert Reverse(log[..m])[0] == log[m - 1];
    } else {
      assert Reverse(log[..m]) == [];
    }
  }

  /** A stretch judged pending adds nothing but a start to what a longer reading concludes. */
  lemma JudgeConcat(a: seq<Entry>, b: seq<Entry>, p: Publication, whole: bool)
    requires Judge(a, p, whole) == Success(Pending)
    ensures Judge(a + b, p, whole) == Judge(b, p, false)
  {
    var q := p.(boundary := None);
    var before := Reverse(a);
    ReverseConcat(a, b);
    WalkConcat(Reverse(b), before, q, START);
    SettledPending(before, q, START);
    var i := WalkSplits(before, q, START);
    var w := Walk(Reverse(b), q, START);
    if w.Passed? {
      var j := WalkSplits(before, q, w.progress);
      assert before[..|a|] == before;
      assert forall e | e in before :: Skipped(e, q);
      OldestDefault(before, q, w.progress.completion);
    }
  }

  lemma {:induction false} SettledPending(es: seq<Entry>, p: Publication, s: Progress)
    requires p.boundary.None?
    ensures Walk(es, p, s) != Settled(Success(Pending))
  {
    if es != [] && Inspect(es[0], p, s).Passed? { SettledPending(es[1..], p, Inspect(es[0], p, s).progress); }
  }

  lemma {:induction false} OldestDefault(es: seq<Entry>, p: Publication, default: Option<Completion>)
    requires OldestCompletion(es, p, None) == None
    ensures OldestCompletion(es, p, default) == default
  {
    if es != [] { OldestDefault(es[..|es| - 1], p, default); }
  }

  predicate Within(log: seq<Entry>, lengths: seq<nat>) {
    forall i :: 0 <= i < |lengths| ==> lengths[i] <= |log|
  }

  /**
   * One check per listed log length, each from the boundary the previous one left, until a check
   * answers something other than pending or unavailable. Returns the last answer and the length
   * of the log it was read from.
   */
  function Checks(log: seq<Entry>, p: Publication, lengths: seq<nat>): (r: (Result<Evidence, Fault>, nat))
    requires lengths != [] && Within(log, lengths)
    ensures r.1 <= |log|
    decreases |lengths|
  {
    var e := ReceiptOn(log[..lengths[0]], p);
    if |lengths| > 1 && e.Success? && (e.value.status == Pending || e.value.status == Unavailable) then
      Checks(log, p.(boundary := e.value.boundary, initializing := false), lengths[1..])
    else (e, lengths[0])
  }

  predicate Growing(m: nat, lengths: seq<nat>) {
    (lengths != [] ==> m <= lengths[0]) && forall i, j :: 0 <= i < j < |lengths| ==> lengths[i] <= lengths[j]
  }

  /**
   * Incremental checking answers what a single scan from the original boundary answers on the log as
   * it stood at the last check: no entry between two boundaries is skipped.
   */
  lemma {:induction false} IncrementalEqualsRescan(log: seq<Entry>, p: Publication, m: nat, lengths: seq<nat>)
    requires OrderedLog(log) && lengths != [] && Within(log, lengths) && Growing(m, lengths)
    requires Anchored(log[..lengths[0]], p, m)
    ensures lengths[0] <= Checks(log, p, lengths).1
    ensures var (answer, n) := Checks(log, p, lengths); answer == ReceiptOn(log[..n], p)
    decreases |lengths|
  {
    hide ReceiptOn, Judge;
    var n0 := lengths[0];
    var e := ReceiptOn(log[..n0], p);
    if |lengths| > 1 && e.Success? && (e.value.status == Pending || e.value.status == Unavailable) {
      var q := p.(boundary := e.value.boundary, initializing := false);
      var k := MovedAnchor(log, p, m, n0, lengths[1], q);
      IncrementalEqualsRescan(log, q, k, lengths[1..]);
      var n := Checks(log, q, lengths[1..]).1;
      assert log[..n][m..n0] == log[m..n0];
      Retarget(log[..n], p, q, m, n0, k);
    }
  }

  /** After a pending or unavailable answer the next publication is anchored where that reading ended. */
  lemma MovedAnchor(log: seq<Entry>, p: Publication, m: nat, n0: nat, n1: nat, q: Publication) returns (k: nat)
    requires OrderedLog(log) && m <= n0 <= n1 <= |log| && Anchored(log[..n0], p, m)
    requires var e := ReceiptOn(log[..n0], p);
             && e.Success? && (e.value.status == Pending || e.value.status == Unavailable)
             && q == p.(boundary := e.value.boundary, initializing := false)
    ensures k <= n0 && Anchored(log[..n1], q, k)
    ensures var v := Judge(log[m..n0], p, m == 0);
            (v == Success(Pending) && k == n0 && n0 > 0) || (v == Success(Unavailable) && k == 0)
  {
    var e := ReceiptOn(log[..n0], p);
    AnchoredReceipt(log[..n0], p, m);
    assert log[..n0][m..] == log[m..n0];
    if e.value.status == Pending {
      PendingIsNonempty(log[..n0], p, m);
      k := n0;
    } else {
      k := 0;
    }
  }

  lemma PendingIsNonempty(log: seq<Entry>, p: Publication, m: nat)
    requires OrderedLog(log) && Anchored(log, p, m) && Judge(log[m..], p, m == 0) == Success(Pending)
    ensures log != []
  {
    assert log == [] ==> Judge([], p, m == 0) != Success(Pending);
  }

  lemma SameReading(es: seq<Entry>, p: Publication, q: Publication, whole: bool)
    requires q == p.(boundary := q.boundary, initializing := q.initializing)
    ensures Judge(es, p, whole) == Judge(es, q, whole)
  {
    WalkIgnoresInitializing(Reverse(es), p.(boundary := None), q.(boundary := None), START);
  }

  lemma {:induction false} WalkIgnoresInitializing(es: seq<Entry>, p: Publication, q: Publication, s: Progress)
    requires q == p.(initializing := q.initializing)
    ensures Walk(es, p, s) == Walk(es, q, s)
  {
    if es != [] && Inspect(es[0], p, s).Passed? { WalkIgnoresInitializing(es[1..], p, q, Inspect(es[0], p, s).progress); }
  }

  /** Moving the boundary of a pending publication does not change the answer on a longer log. */
  lemma Retarget(log: seq<Entry>, p: Publication, q: Publication, m: nat, n0: nat, k: nat)
    requires OrderedLog(log) && m <= n0 <= |log| && Anchored(log, p, m) && Anchored(log, q, k)
    requires q == p.(boundary := q.boundary, initializing := false)
    requires var v := Judge(log[m..n0], p, m == 0);
             (v == Success(Pending) && k == n0 && n0 > 0) || (v == Success(Unavailable) && k == 0)
    ensures ReceiptOn(log, p) == ReceiptOn(log, q)
  {
    AnchoredReceipt(log, p, m);
    AnchoredReceipt(log, q, k);
    hide OrderedLog, Judge, Conclusion;
    assert log[m..] == log[m..n0] + log[n0..];
    if k == n0 && n0 > 0 && Judge(log[m..n0], p, m == 0) == Success(Pending) {
      JudgeConcat(log[m..n0], log[n0..], p, m == 0);
      SameReading(log[n0..], p, q, false);
    } else {
      JudgeUnavailable(log[m..n0], p, m == 0);
      SameReading(log[m..], p, q, true);
    }
  }

  lemma JudgeUnavailable(es: seq<Entry>, p: Publication, whole: bool)
    requires Judge(es, p, whole) == Success(Unavailable)
    ensures whole
  {
    SettledIsNotUnavailable(Reverse(es), p.(boundary := None), START);
  }

  /** A message recorded after the original boundary is never passed over by the last check. */
  lemma NeverSkipped(log: seq<Entry>, p: Publication, m: nat, lengths: seq<nat>, i: nat)
    requires OrderedLog(log) && lengths != [] && Within(log, lengths) && Growing(m, lengths)
    requires Anchored(log[..lengths[0]], p, m)
    requires m <= i < Checks(log, p, lengths).1 && Identified(log[i], p)
    ensures var answer := Checks(log, p, lengths).0;
            if answer.Success? then answer.value.status == Received else answer.error == DifferentMessage || answer.error == DifferentTurn
  {
    hide Judge, Checks;
    IncrementalEqualsRescan(log, p, m, lengths);
    var n := Checks(log, p, lengths).1;
    AnchoredReceipt(log[..n], p, m);
    JudgeMeets(log[..n][m..], p, m == 0, i - m);
  }

  lemma JudgeMeets(segment: seq<Entry>, p: Publication, whole: bool, i: nat)
    requires i < |segment| && Identified(segment[i], p)
    ensures Judge(segment, p, whole) in {Success(Received), Failure(DifferentMessage), Failure(DifferentTurn)}
  {
    var q := p.(boundary := None);
    var es := Reverse(segment);
    var at := |segment| - 1 - i;
    var k := WalkSplits(es, q, START);
    assert es[at] == segment[i] && !Skipped(es[at], q);
    assert forall j :: 0 <= j < k ==> es[..k][j] == es[j] && es[j] in es[..k];
  }
}

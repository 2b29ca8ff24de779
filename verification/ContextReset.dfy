/**
 * CodexRuntime.cs: Reset, with StateArchive.cs: Move. The selected entries of the home move one rename at a
 * time into the archive of the reset, the directories are synced, and then the marker names the reset. A crash
 * may undo any of the renames that were not synced, and leaves the marker whole (PrivateFiles.WholeOldOrNew).
 */
module ContextReset {
  import opened Prelude

  const FILE_NAME := "crossfire-context-registry.json"

  predicate Selected(name: string) {
    name == FILE_NAME || FILE_NAME + "." <= name
  }

  /** The registry of contexts and the files named after it. */
  lemma SelectsExactly(name: string)
    ensures Selected(name) <==>
            name == "crossfire-context-registry.json" || exists suffix :: name == "crossfire-context-registry.json." + suffix
  {
    var stem := "crossfire-context-registry.json.";
    assert FILE_NAME + "." == stem;
    if stem <= name {
      assert name == stem + name[|stem|..];
    }
  }

  type Content = int

  /** A place in the archive of one reset. */
  datatype Slot = Slot(id: string, name: string)

  datatype Files = Files(home: map<string, Content>, archives: map<Slot, Content>, marker: Option<string>)

  predicate Clear(home: map<string, Content>) {
    forall name :: name in home ==> !Selected(name)
  }

  function Renamed(f: Files, id: string, name: string): Files
    requires name in f.home
  {
    f.(home := f.home - {name}, archives := f.archives[Slot(id, name) := f.home[name]])
  }

  /** Some entry would replace one that the archive already has. */
  predicate Conflicts(f: Files, id: string) {
    exists name :: name in f.home && Selected(name) && Slot(id, name) in f.archives
  }

  /** after is before with the entries in moves renamed into the archives they map to, and nothing else. */
  ghost predicate Moved(before: Files, after: Files, moves: map<string, string>) {
    && (forall name :: name in moves ==> name in before.home && Selected(name) && Slot(moves[name], name) !in before.archives)
    && (forall name :: name in after.home <==> name in before.home && name !in moves)
    && (forall name :: name in after.home ==> after.home[name] == before.home[name])
    && (forall k :: k in after.archives <==> k in before.archives || (k.name in moves && moves[k.name] == k.id))
    && (forall k :: k in after.archives ==>
          after.archives[k] == if k in before.archives then before.archives[k] else before.home[k.name])
  }

  function AllTo(f: Files, id: string): map<string, string> {
    map name | name in f.home && Selected(name) :: id
  }

  /** The uninterrupted result: every selected entry in the archive of the reset, and the marker set. */
  ghost predicate Archived(before: Files, after: Files, id: string) {
    Moved(before, after, AllTo(before, id)) && after.marker == Some(id)
  }

  /** There is only one such result. */
  lemma ArchivedUnique(before: Files, a: Files, b: Files, id: string)
    requires Archived(before, a, id) && Archived(before, b, id)
    ensures a == b
  {
    hide AllTo, Selected;
    assert a.home == b.home;
    assert a.archives == b.archives;
  }

  /** No entry is lost, changed or doubled: each is where it was, or has moved once to one archive. */
  ghost predicate Conserved(before: Files, after: Files) {
    exists moves :: Moved(before, after, moves)
  }

  lemma ConservedMeans(before: Files, after: Files, name: string)
    requires Conserved(before, after) && name in before.home
    ensures name in after.home ==> after.home[name] == before.home[name]
    ensures name in after.home ==> forall k: Slot :: k.name == name ==> (k in after.archives <==> k in before.archives)
    ensures name !in after.home ==> Selected(name) && exists k: Slot :: k.name == name && ArrivedAt(before, after, k)
    ensures forall k :: k in before.archives ==> k in after.archives && after.archives[k] == before.archives[k]
  {
    hide Selected;
    var moves :| Moved(before, after, moves);
    if name !in after.home {
      assert ArrivedAt(before, after, Slot(moves[name], name));
    }
  }

  /** The slot took the entry of its name, and no other slot did. */
  ghost predicate ArrivedAt(before: Files, after: Files, k: Slot) {
    && k !in before.archives && k in after.archives && k.name in before.home && after.archives[k] == before.home[k.name]
    && forall l: Slot :: l.name == k.name && l != k ==> (l in after.archives <==> l in before.archives)
  }

  // ---- The code

  class Home {
    var home: map<string, Content>
    var archives: map<Slot, Content>
    var marker: Option<string>

    constructor (f: Files)
      ensures View() == f
    {
      home, archives, marker := f.home, f.archives, f.marker;
    }

    ghost function View(): Files
      reads this
    {
      Files(home, archives, marker)
    }

    /** Renames exclusively, in any order, and stops at the first name the archive already has. */
    method Move(id: string) returns (ok: bool)
      modifies `home, `archives
      ensures ok <==> !old(Conflicts(View(), id))
      ensures ok ==> Moved(old(View()), View(), AllTo(old(View()), id))
      ensures Conserved(old(View()), View())
    {
      ghost var before := View();
      ghost var moves: map<string, string> := map[];
      var entries := set name | name in home && Selected(name);
      ghost var all := entries;
      assert forall name :: name in all <==> name in home && Selected(name);
      hide Moved, Selected, Conflicts, AllTo, Conserved;
      Unmoved(before);
      while entries != {}
        invariant Moved(before, View(), moves)
        invariant entries <= all && moves.Keys == all - entries && entries <= home.Keys
        invariant forall name :: name in moves ==> moves[name] == id && Slot(id, name) !in before.archives
        decreases |entries|
      {
        var name :| name in entries;
        MovesMean(before, View(), moves, id, name);
        entries := entries - {name};
        if Slot(id, name) in archives {
          ConflictAt(before, id, name);
          MovedConserves(before, View(), moves);
          return false;
        }
        RenameMoves(before, View(), moves, id, name);
        archives := archives[Slot(id, name) := home[name]];
        home := home - {name};
        moves := moves[name := id];
      }
      NoConflict(before, id, all);
      MovesAll(before, id, moves);
      MovedConserves(before, View(), moves);
      return true;
    }

    method Reset(id: string) returns (ok: bool)
      modifies this
      ensures old(marker) == Some(id) ==> ok && View() == old(View())
      ensures old(marker) != Some(id) ==> (ok <==> !old(Conflicts(View(), id)))
      ensures old(marker) != Some(id) && ok ==> Archived(old(View()), View(), id)
      ensures Conserved(old(View()), View())
    {
      hide Moved, Conflicts;
      if marker == Some(id) {
        Unmoved(View());
        return true;
      }
      ok := Move(id);
      if ok {
        ghost var moved := View();
        marker := Some(id);
        MarkerApart(old(View()), moved, View(), AllTo(old(View()), id));
      }
    }
  }

  lemma MovedConserves(before: Files, after: Files, moves: map<string, string>)
    requires Moved(before, after, moves)
    ensures Conserved(before, after)
  {
  }

  lemma MovesAll(f: Files, id: string, moves: map<string, string>)
    requires forall name :: name in moves <==> name in f.home && Selected(name)
    requires forall name :: name in moves ==> moves[name] == id
    ensures moves == AllTo(f, id)
  {
    hide Selected;
  }

  lemma Unmoved(f: Files)
    ensures Moved(f, f, map[]) && Conserved(f, f)
  {
    assert Moved(f, f, map[]);
  }

  lemma MarkerApart(before: Files, after: Files, other: Files, moves: map<string, string>)
    requires Moved(before, after, moves) && other.home == after.home && other.archives == after.archives
    ensures Moved(before, other, moves)
  {
  }

  /** What is still at home, and what an archive of this reset held before. */
  lemma MovesMean(before: Files, now: Files, moves: map<string, string>, id: string, name: string)
    requires Moved(before, now, moves) && name in now.home
    ensures name in before.home && now.home[name] == before.home[name] && name !in moves
    ensures Slot(id, name) in now.archives <==> Slot(id, name) in before.archives
  {
    hide Selected;
  }

  lemma RenameMoves(before: Files, now: Files, moves: map<string, string>, id: string, name: string)
    requires Moved(before, now, moves) && name in now.home && Selected(name) && Slot(id, name) !in now.archives
    ensures Moved(before, Renamed(now, id, name), moves[name := id])
  {
    hide Selected;
  }

  lemma ConflictAt(f: Files, id: string, name: string)
    requires name in f.home && Selected(name) && Slot(id, name) in f.archives
    ensures Conflicts(f, id)
  {
  }

  lemma NoConflict(f: Files, id: string, all: set<string>)
    requires forall name :: name in f.home && Selected(name) ==> name in all
    requires forall name :: name in all ==> Slot(id, name) !in f.archives
    ensures !Conflicts(f, id)
  {
    hide Selected;
  }

  // ---- Crashes between any two steps

  datatype Phase = Idle | Moving(id: string) | Synced(id: string) | Marked(id: string)

  /** live is what programs see, durable what a crash would leave of everything not yet synced, and written the
      files when an entry was last written. */
  datatype World = World(live: Files, durable: Files, phase: Phase, written: Files)

  datatype Event =
    | Request(id: string)
    | Rename(name: string)
    | SyncMoves
    | Mark
    | SyncMarker
    | Fail                                      // an error ends the attempt
    | Write(name: string, content: Content)     // the runtime makes or replaces an entry between attempts, and syncs the home
    | Crash(kept: set<string>, marked: bool)    // the renames, and whether the marker, that reached the disk

  /** A crash keeps each rename or undoes it. */
  function Torn(durable: Files, live: Files, kept: set<string>, marked: bool): Files {
    Files(map name | name in durable.home && (name in live.home || name !in kept) :: durable.home[name],
          map k: Slot | k in live.archives && (k in durable.archives || k.name in kept) :: live.archives[k],
          if marked then live.marker else durable.marker)
  }

  function Next(w: World, e: Event): World {
    match e
    case Request(id) => if w.phase.Idle? && w.live.marker != Some(id) then w.(phase := Moving(id)) else w
    case Rename(name) =>
      if !w.phase.Moving? || name !in w.live.home || !Selected(name) then w
      else if Slot(w.phase.id, name) in w.live.archives then w.(phase := Idle)
      else w.(live := Renamed(w.live, w.phase.id, name))
    case SyncMoves => if w.phase.Moving? && Clear(w.live.home) then w.(durable := w.live, phase := Synced(w.phase.id)) else w
    case Mark => if w.phase.Synced? then w.(live := w.live.(marker := Some(w.phase.id)), phase := Marked(w.phase.id)) else w
    case SyncMarker => if w.phase.Marked? then w.(durable := w.live, phase := Idle) else w
    case Fail => w.(phase := Idle)
    case Write(name, content) => if w.phase.Idle? then At(w.live.(home := w.live.home[name := content])) else w
    case Crash(kept, marked) =>
      var left := Torn(w.durable, w.live, kept, marked);
      w.(live := left, durable := left, phase := Idle)
  }

  function At(f: Files): World {
    World(f, f, Idle, f)
  }

  function Run(start: Files, events: seq<Event>): World {
    if events == [] then At(start) else Next(Run(start, events[..|events| - 1]), events[|events| - 1])
  }

  ghost predicate Inv(w: World) {
    Conserved(w.written, w.durable) && Conserved(w.durable, w.live)
  }

  lemma ConservedTogether(a: Files, b: Files, c: Files)
    requires Conserved(a, b) && Conserved(b, c)
    ensures Conserved(a, c)
  {
    hide Moved;
    var first :| Moved(a, b, first);
    var second :| Moved(b, c, second);
    MovedTogether(a, b, c, first, second);
  }

  lemma MovedTogether(a: Files, b: Files, c: Files, first: map<string, string>, second: map<string, string>)
    requires Moved(a, b, first) && Moved(b, c, second)
    ensures Moved(a, c, first + second)
  {
    hide Selected;
  }

  lemma TornConserves(durable: Files, live: Files, kept: set<string>, marked: bool, moves: map<string, string>)
    requires Moved(durable, live, moves)
    ensures Moved(durable, Torn(durable, live, kept, marked), KeptMoves(moves, kept))
  {
    hide Selected;
  }

  function KeptMoves(moves: map<string, string>, kept: set<string>): map<string, string> {
    map name | name in moves && name in kept :: moves[name]
  }

  /** At every crash point every entry last written is in exactly one place with its content. */
  lemma {:induction false} CrashesConserve(start: Files, events: seq<Event>)
    ensures Inv(Run(start, events)) && Conserved(Run(start, events).written, Run(start, events).live)
  {
    if events == [] {
      Unmoved(start);
    } else {
      var w, e := Run(start, events[..|events| - 1]), events[|events| - 1];
      CrashesConserve(start, events[..|events| - 1]);
      hide Moved, Run;
      StepConserves(w, e);
      ConservedTogether(Next(w, e).written, Next(w, e).durable, Next(w, e).live);
    }
  }

  lemma StepConserves(w: World, e: Event)
    requires Inv(w)
    ensures Inv(Next(w, e))
  {
    hide Moved, Torn;
    var v := Next(w, e);
    ConservedTogether(w.written, w.durable, w.live);
    Unmoved(v.live);
    var moves :| Moved(w.durable, w.live, moves);
    match e
    case Rename(name) =>
      if v.live != w.live {
        RenameMoves(w.durable, w.live, moves, w.phase.id, name);
      }
    case Mark => MarkerApart(w.durable, w.live, v.live, moves);
    case Crash(kept, marked) =>
      TornConserves(w.durable, w.live, kept, marked, moves);
      ConservedTogether(w.written, w.durable, v.live);
    case _ =>
  }

  /** The content is at home or in an archive, under its name. */
  ghost predicate Holds(f: Files, name: string, content: Content) {
    (name in f.home && f.home[name] == content) || exists k: Slot :: k.name == name && k in f.archives && f.archives[k] == content
  }

  lemma ConservedHolds(before: Files, after: Files, name: string, content: Content)
    requires Conserved(before, after)
    ensures Holds(before, name, content) <==> Holds(after, name, content)
  {
    hide Selected;
    var moves :| Moved(before, after, moves);
    if name in moves && before.home[name] == content {
      assert after.archives[Slot(moves[name], name)] == content;
    }
  }

  /** Over whole runs with crashes: what is held under a name stays held until an entry of that name is written. */
  lemma {:induction false} NothingLost(start: Files, events: seq<Event>, more: seq<Event>, name: string, content: Content)
    requires Holds(Run(start, events).live, name, content)
    requires forall i :: 0 <= i < |more| && more[i].Write? ==> more[i].name != name
    ensures Holds(Run(start, events + more).live, name, content)
  {
    if more == [] {
      assert events + more == events;
    } else {
      var before, last := events + more[..|more| - 1], more[|more| - 1];
      NothingLost(start, events, more[..|more| - 1], name, content);
      assert (events + more)[..|events + more| - 1] == before;
      assert Run(start, events + more) == Next(Run(start, before), last);
      CrashesConserve(start, before);
      CrashesConserve(start, events + more);
      hide Run, Inv;
      StepHolds(Run(start, before), last, name, content);
    }
  }

  lemma StepHolds(w: World, e: Event, name: string, content: Content)
    requires Holds(w.live, name, content) && (e.Write? ==> e.name != name)
    requires Conserved(w.written, w.live) && Conserved(Next(w, e).written, Next(w, e).live)
    ensures Holds(Next(w, e).live, name, content)
  {
    hide Conserved, Torn, Holds;
    var v := Next(w, e);
    ConservedHolds(w.written, w.live, name, content);
    ConservedHolds(v.written, v.live, name, content);
    if v.written != w.written {
      WriteHolds(w.live, e.name, e.content, name, content);
    }
  }

  lemma WriteHolds(f: Files, other: string, entry: Content, name: string, content: Content)
    requires Holds(f, name, content) && other != name
    ensures Holds(f.(home := f.home[other := entry]), name, content)
  {
  }

  // ---- Retries with one reset identity

  predicate Only(id: string, events: seq<Event>) {
    forall i :: 0 <= i < |events| && events[i].Request? ==> events[i].id == id
  }

  ghost predicate OneArchive(start: Files, f: Files, id: string) {
    exists moves :: Moved(start, f, moves) && AllMove(moves, id)
  }

  predicate AllMove(moves: map<string, string>, id: string) {
    forall name :: name in moves ==> moves[name] == id
  }

  predicate Markers(w: World, id: string) {
    && (w.phase.Idle? || w.phase.id == id)
    && (w.durable.marker == w.written.marker || w.durable.marker == Some(id))
    && (w.live.marker == w.durable.marker || w.live.marker == Some(id))
    && (w.durable.marker == Some(id) ==> Clear(w.durable.home))
    && (w.live.marker == Some(id) || w.phase.Synced? || w.phase.Marked? ==> Clear(w.live.home) && Clear(w.durable.home))
  }

  /** Until the reset completes its attempts move what was last written; from then on only what is written changes. */
  ghost predicate Retrying(w: World, id: string) {
    if w.written.marker == Some(id) then w == At(w.written)
    else OneArchive(w.written, w.durable, id) && OneArchive(w.durable, w.live, id) && Markers(w, id)
  }

  lemma OneTogether(a: Files, b: Files, c: Files, id: string)
    requires OneArchive(a, b, id) && OneArchive(b, c, id)
    ensures OneArchive(a, c, id)
  {
    hide Moved;
    var first :| Moved(a, b, first) && AllMove(first, id);
    var second :| Moved(b, c, second) && AllMove(second, id);
    MovedTogether(a, b, c, first, second);
    assert AllMove(first + second, id);
  }

  lemma RetryStep(w: World, e: Event, id: string)
    requires Retrying(w, id) && w.written.marker != Some(id) && (e.Request? ==> e.id == id)
    ensures OneArchive(Next(w, e).written, Next(w, e).durable, id) && OneArchive(Next(w, e).durable, Next(w, e).live, id)
  {
    hide Moved, Torn, Clear;
    var v := Next(w, e);
    OneTogether(w.written, w.durable, w.live, id);
    Unmoved(v.live);
    assert AllMove(map[], id);
    var moves :| Moved(w.durable, w.live, moves) && AllMove(moves, id);
    match e
    case Rename(name) =>
      if v.live != w.live {
        RenameMoves(w.durable, w.live, moves, id, name);
        assert AllMove(moves[name := id], id);
      }
    case Mark => MarkerApart(w.durable, w.live, v.live, moves);
    case Crash(kept, marked) =>
      TornConserves(w.durable, w.live, kept, marked, moves);
      assert AllMove(KeptMoves(moves, kept), id);
      OneTogether(w.written, w.durable, v.live, id);
    case _ =>
  }

  lemma MarkerStep(w: World, e: Event, id: string)
    requires Retrying(w, id) && w.written.marker != Some(id) && (e.Request? ==> e.id == id)
    ensures if Next(w, e).written.marker == Some(id) then Next(w, e) == At(Next(w, e).written) else Markers(Next(w, e), id)
  {
    hide Moved, Selected;
    if e.Crash? && Clear(w.durable.home) {
      assert Clear(Torn(w.durable, w.live, e.kept, e.marked).home);
    }
  }

  lemma DoneStep(f: Files, e: Event, id: string)
    requires f.marker == Some(id) && (e.Request? ==> e.id == id)
    ensures Next(At(f), e) == At(Next(At(f), e).written) && Next(At(f), e).written.marker == Some(id)
    ensures !e.Write? ==> Next(At(f), e) == At(f)
  {
    if e.Crash? {
      assert Torn(f, f, e.kept, e.marked) == f;
    }
  }

  lemma {:induction false} Retries(start: Files, events: seq<Event>, id: string)
    requires start.marker != Some(id) && Only(id, events)
    ensures Retrying(Run(start, events), id)
  {
    if events == [] {
      Unmoved(start);
      assert AllMove(map[], id);
    } else {
      var w, e := Run(start, events[..|events| - 1]), events[|events| - 1];
      Retries(start, events[..|events| - 1], id);
      hide OneArchive, Markers, Run;
      if w.written.marker == Some(id) {
        DoneStep(w.written, e, id);
      } else {
        RetryStep(w, e, id);
        MarkerStep(w, e, id);
      }
      hide Next;
    }
  }

  /**
   * However often an attempt is cut, and whatever is written between attempts, once the marker names the reset -
   * also as a crash leaves it - the files are those of the uninterrupted reset of what was last written before
   * it completed, and from then on what was last written.
   */
  lemma {:induction false} RetriesConverge(start: Files, events: seq<Event>, id: string)
    requires start.marker != Some(id) && Only(id, events) && Run(start, events).live.marker == Some(id)
    ensures var w := Run(start, events); if w.written.marker != Some(id) then Archived(w.written, w.live, id) else w.live == w.written
  {
    Retries(start, events, id);
    hide Run, Moved;
    var w := Run(start, events);
    if w.written.marker != Some(id) {
      OneTogether(w.written, w.durable, w.live, id);
      AllMoved(w.written, w.live, id);
    }
  }

  lemma AllMoved(start: Files, live: Files, id: string)
    requires OneArchive(start, live, id) && Clear(live.home) && live.marker == Some(id)
    ensures Archived(start, live, id)
  {
    var moves :| Moved(start, live, moves) && AllMove(moves, id);
    hide Selected;
    assert moves.Keys == AllTo(start, id).Keys;
    assert moves == AllTo(start, id);
  }

  /** Repeating the latest completed reset changes nothing, whatever the home holds by then. */
  lemma {:induction false} RepeatIsNoOp(start: Files, events: seq<Event>, id: string)
    requires start.marker == Some(id) && Only(id, events)
    ensures Run(start, events) == At(Run(start, events).written) && Run(start, events).live.marker == Some(id)
    ensures (forall i :: 0 <= i < |events| ==> !events[i].Write?) ==> Run(start, events).live == start
  {
    if events != [] {
      RepeatIsNoOp(start, events[..|events| - 1], id);
      DoneStep(Run(start, events[..|events| - 1]).written, events[|events| - 1], id);
      hide Next;
    }
  }

  // ---- When a retry completes

  /** Nothing an attempt, a crash or a write does takes a conflicting name out of the home or out of the archive. */
  predicate Stuck(w: World, id: string, name: string) {
    && (w.phase.Idle? || w.phase == Moving(id)) && Selected(name) && w.live.marker != Some(id) && w.durable.marker != Some(id)
    && name in w.live.home && name in w.durable.home && Slot(id, name) in w.live.archives && Slot(id, name) in w.durable.archives
  }

  lemma {:induction false} StuckStays(start: Files, events: seq<Event>, more: seq<Event>, id: string, name: string)
    requires Stuck(Run(start, events), id, name) && Only(id, more)
    ensures Stuck(Run(start, events + more), id, name)
  {
    if more == [] {
      assert events + more == events;
    } else {
      StuckStays(start, events, more[..|more| - 1], id, name);
      assert (events + more)[..|events + more| - 1] == events + more[..|more| - 1];
      hide Selected;
    }
  }

  /** Without a conflict the attempt renames what is left, syncs and sets the marker. */
  lemma {:induction false} Completes(start: Files, events: seq<Event>, id: string) returns (more: seq<Event>)
    requires Run(start, events).phase == Moving(id) && !Conflicts(Run(start, events).live, id)
    ensures Only(id, more) && Run(start, events + more).live.marker == Some(id)
    decreases AllTo(Run(start, events).live, id).Keys
  {
    hide Run, Selected, Conflicts, AllTo;
    var w := Run(start, events);
    if AllTo(w.live, id).Keys == {} {
      AllMovedCompletes(w, id);
      more := [SyncMoves, Mark];
      RunSnoc(start, events, SyncMoves);
      RunSnoc(start, events + [SyncMoves], Mark);
      assert events + [SyncMoves] + [Mark] == events + more;
    } else {
      var name :| name in AllTo(w.live, id).Keys;
      ToMove(w.live, id, name);
      RenameLeaves(w.live, id, name);
      RunSnoc(start, events, Rename(name));
      more := Completes(start, events + [Rename(name)], id);
      assert events + [Rename(name)] + more == events + ([Rename(name)] + more);
      more := [Rename(name)] + more;
    }
  }

  lemma ToMove(f: Files, id: string, name: string)
    requires name in AllTo(f, id).Keys
    ensures name in f.home && Selected(name)
  {
  }

  lemma AllMovedCompletes(w: World, id: string)
    requires w.phase == Moving(id) && AllTo(w.live, id).Keys == {}
    ensures Next(Next(w, SyncMoves), Mark).live.marker == Some(id)
  {
    assert forall name :: name in w.live.home && Selected(name) ==> name in AllTo(w.live, id).Keys;
    hide Selected;
  }

  lemma RenameLeaves(f: Files, id: string, name: string)
    requires name in f.home && Selected(name) && !Conflicts(f, id)
    ensures Slot(id, name) !in f.archives && !Conflicts(Renamed(f, id, name), id)
    ensures AllTo(Renamed(f, id, name), id).Keys == AllTo(f, id).Keys - {name}
  {
    hide Selected;
  }

  /**
   * From any point between attempts, some further attempts with this identity complete it exactly when no
   * selected name at home is already in its archive.
   */
  lemma {:induction false} RetryExactly(start: Files, events: seq<Event>, id: string)
    requires var w := Run(start, events); w.phase.Idle? && w.live.marker != Some(id) && w.durable.marker != Some(id)
    ensures (exists more :: Only(id, more) && Run(start, events + more).live.marker == Some(id)) <==> !Conflicts(Run(start, events).live, id)
  {
    hide Selected, Run;
    var w := Run(start, events);
    if Conflicts(w.live, id) {
      var name :| name in w.live.home && Selected(name) && Slot(id, name) in w.live.archives;
      CrashesConserve(start, events);
      ConflictBefore(w.durable, w.live, id, name);
      forall more | Only(id, more) ensures Run(start, events + more).live.marker != Some(id) {
        StuckStays(start, events, more, id, name);
      }
    } else {
      RunSnoc(start, events, Request(id));
      var more := Completes(start, events + [Request(id)], id);
      assert events + [Request(id)] + more == events + ([Request(id)] + more);
      assert Only(id, [Request(id)] + more);
    }
  }

  lemma ConflictBefore(before: Files, after: Files, id: string, name: string)
    requires Conserved(before, after) && name in after.home && Slot(id, name) in after.archives
    ensures name in before.home && Slot(id, name) in before.archives
  {
    hide Selected;
  }

  lemma RunSnoc(start: Files, events: seq<Event>, e: Event)
    ensures Run(start, events + [e]) == Next(Run(start, events), e)
  {
    assert (events + [e])[..|events|] == events;
  }

  /** So an attempt cut after a rename never completes once the runtime has made that entry again. */
  lemma {:induction false} RecreatedConflicts(start: Files, id: string, name: string, content: Content, more: seq<Event>)
    requires start.marker != Some(id) && name in start.home && Selected(name) && Slot(id, name) !in start.archives && Only(id, more)
    ensures Run(start, [Request(id), Rename(name), Fail, Write(name, content)] + more).live.marker != Some(id)
  {
    hide Selected;
    var cut := [Request(id), Rename(name), Fail, Write(name, content)];
    RunSnoc(start, [], cut[0]);
    RunSnoc(start, cut[..1], cut[1]);
    RunSnoc(start, cut[..2], cut[2]);
    RunSnoc(start, cut[..3], cut[3]);
    assert [] + [cut[0]] == cut[..1] && cut[..1] + [cut[1]] == cut[..2] && cut[..2] + [cut[2]] == cut[..3] && cut[..3] + [cut[3]] == cut;
    assert Run(start, []) == At(start);
    hide Run;
    assert Run(start, cut[..2]).live == Renamed(start, id, name);
    assert Stuck(Run(start, cut), id, name);
    StuckStays(start, cut, more, id, name);
  }
}

/**
 * CodexHistories.cs and ContextRegistry.cs: contexts opened by at most one initialization each, the registry
 * that binds a context to its native session, and the closing of the owner. Every event is one section under
 * the gate, or one step of an initialization between two sections.
 */
module CodexHistories {
  import opened Prelude

  const ROOM_BUDGET := 2000
  const MAXIMUM_BINDINGS := 2002

  /** "shared", "control", or one room. */
  datatype Context = Shared | Control | Room(id: nat)

  datatype Binding = Binding(context: Context, session: nat)

  type Registry = seq<Binding>

  function ContextsOf(registry: Registry): set<Context> {
    set b | b in registry :: b.context
  }

  function SessionsOf(registry: Registry): set<nat> {
    set b | b in registry :: b.session
  }

  /** ContextRegistry.Decode on the bindings. */
  predicate Decodes(registry: Registry) {
    |registry| <= MAXIMUM_BINDINGS && |ContextsOf(registry)| == |registry| && |SessionsOf(registry)| == |registry|
  }

  function Rooms(registry: Registry): nat {
    if registry == [] then 0 else Rooms(registry[..|registry| - 1]) + if registry[|registry| - 1].context.Room? then 1 else 0
  }

  /** The first binding of the context. */
  function Bound(registry: Registry, c: Context): Option<nat> {
    if registry == [] then None
    else
      var earlier := Bound(registry[..|registry| - 1], c);
      if earlier.Some? || registry[|registry| - 1].context != c then earlier else Some(registry[|registry| - 1].session)
  }

  // ---- The initializations

  datatype Stage =
    | Begun
    | Looked(previous: Option<nat>)                 // Retained was read
    | Admitted(previous: Option<nat>)               // the room budget was checked
    | Launched(previous: Option<nat>, session: nat) // the native runtime selected a session
    | Recorded(session: nat)                        // the registry holds the binding
    | Published
    | Ended                                         // failed, and still listed

  datatype Task = Task(context: Context, stage: Stage)

  datatype World = World(
    registry: Registry,
    disk: Registry,
    live: map<Context, nat>,
    initializing: map<Context, nat>,
    tasks: map<nat, Task>,
    started: nat,
    closing: bool,
    collected: bool)              // Close has taken the connections it will dispose

  datatype Saving = Saved | NotWritten | Uncertain   // the last renames the file and then fails

  datatype Event =
    | Open(context: Context)
    | Look(task: nat)
    | Check(task: nat)
    | Launch(task: nat, created: Option<nat>)        // None when the session cannot be opened
    | Record(task: nat, saving: Saving)
    | Publish(task: nat, ok: bool)
    | Finish(task: nat)
    | BeginClose
    | Collect

  function Start(loaded: Registry): World {
    World(loaded, loaded, map[], map[], map[], 0, false, false)
  }

  function Move(w: World, t: nat, stage: Stage): World
    requires t in w.tasks
  {
    w.(tasks := w.tasks[t := w.tasks[t].(stage := stage)])
  }

  function StageOf(w: World, t: nat): Stage {
    if t in w.tasks then w.tasks[t].stage else Ended
  }

  function Opening(w: World, c: Context): World {
    if w.closing || c in w.live || c in w.initializing then w
    else w.(initializing := w.initializing[c := w.started], tasks := w.tasks[w.started := Task(c, Begun)], started := w.started + 1)
  }

  /** The second section of Initialize: a new binding is appended if it is new and its file was written. */
  function Recording(w: World, t: nat, saving: Saving): World
    requires StageOf(w, t).Launched?
  {
    var stage := w.tasks[t].stage;
    var next := if stage.previous.None? then w.registry + [Binding(w.tasks[t].context, stage.session)] else w.registry;
    if (stage.previous.None? && stage.session in SessionsOf(w.registry)) || !Decodes(next) || saving.NotWritten? then Move(w, t, Ended)
    else if saving.Uncertain? then Move(w, t, Ended).(disk := next)
    else Move(w, t, Recorded(stage.session)).(registry := next, disk := next)
  }

  function Next(w: World, e: Event): World {
    match e
    case Open(c) => Opening(w, c)
    case Look(t) => if StageOf(w, t).Begun? then Move(w, t, Looked(Bound(w.registry, w.tasks[t].context))) else w
    case Check(t) =>
      if !StageOf(w, t).Looked? then w
      else if w.tasks[t].stage.previous.None? && w.tasks[t].context.Room? && Rooms(w.registry) >= ROOM_BUDGET then Move(w, t, Ended)
      else Move(w, t, Admitted(w.tasks[t].stage.previous))
    case Launch(t, created) =>
      if !StageOf(w, t).Admitted? then w
      else if created.None? then Move(w, t, Ended)
      else
        var previous := w.tasks[t].stage.previous;
        Move(w, t, Launched(previous, if previous.Some? then previous.value else created.value))
    case Record(t, saving) => if StageOf(w, t).Launched? then Recording(w, t, saving) else w
    case Publish(t, ok) =>
      if !StageOf(w, t).Recorded? then w
      else if !ok then Move(w, t, Ended)
      else Move(w, t, Published).(live := w.live[w.tasks[t].context := w.tasks[t].stage.session])
    case Finish(t) =>
      if t !in w.tasks || !(w.tasks[t].stage.Ended? || w.tasks[t].stage.Published?) then w
      else w.(initializing := w.initializing - {w.tasks[t].context}, tasks := w.tasks - {t})
    case BeginClose => w.(closing := true)
    case Collect => if w.closing && w.initializing == map[] then w.(collected := true) else w
  }

  function Run(loaded: Registry, events: seq<Event>): World {
    if events == [] then Start(loaded) else Next(Run(loaded, events[..|events| - 1]), events[|events| - 1])
  }

  /** The fields under the gate; tasks says where each initialization stands. */
  class Owner {
    var registry: Registry
    var disk: Registry
    var live: map<Context, nat>
    var initializing: map<Context, nat>
    var tasks: map<nat, Task>
    var started: nat
    var closing: bool
    var collected: bool

    constructor (loaded: Registry)
      ensures View() == Start(loaded)
    {
      registry, disk, live, initializing, tasks, started := loaded, loaded, map[], map[], map[], 0;
      closing, collected := false, false;
    }

    ghost function View(): World
      reads this
    {
      World(registry, disk, live, initializing, tasks, started, closing, collected)
    }

    /** Some(task) when a new initialization was listed. */
    method Open(c: Context) returns (task: Option<nat>)
      modifies this
      ensures View() == old(Opening(View(), c))
      ensures task == if old(closing || c in live || c in initializing) then None else Some(old(started))
    {
      if closing || c in live || c in initializing {
        return None;
      }
      task := Some(started);
      initializing := initializing[c := started];
      tasks := tasks[started := Task(c, Begun)];
      started := started + 1;
    }

    /** The section that appends the binding and saves the registry before it is used. */
    method Record(t: nat, saving: Saving)
      requires t in tasks && tasks[t].stage.Launched?
      modifies this
      ensures View() == old(Recording(View(), t, saving))
    {
      var context, previous, session := tasks[t].context, tasks[t].stage.previous, tasks[t].stage.session;
      tasks := tasks[t := Task(context, Ended)];
      if previous.None? && session in SessionsOf(registry) {
        return;
      }
      var next := if previous.None? then registry + [Binding(context, session)] else registry;
      var saved := Write(next, saving);
      if saved {
        registry := next;
        tasks := tasks[t := Task(context, Recorded(session))];
      }
    }

    /** ContextRegistry.Write: nothing is written that Decode would refuse. */
    method Write(next: Registry, saving: Saving) returns (saved: bool)
      modifies `disk
      ensures saved == (Decodes(next) && saving.Saved?)
      ensures disk == if Decodes(next) && !saving.NotWritten? then next else old(disk)
    {
      saved := false;
      if Decodes(next) && !saving.NotWritten? {
        disk := next;
        saved := saving.Saved?;
      }
    }

    method Publish(t: nat, ok: bool)
      requires t in tasks && tasks[t].stage.Recorded?
      modifies this
      ensures View() == old(Next(View(), Event.Publish(t, ok)))
    {
      if ok {
        live := live[tasks[t].context := tasks[t].stage.session];
      }
      tasks := tasks[t := tasks[t].(stage := if ok then Published else Ended)];
    }

    method Finish(t: nat)
      requires t in tasks && (tasks[t].stage.Ended? || tasks[t].stage.Published?)
      modifies this
      ensures View() == old(Next(View(), Event.Finish(t)))
    {
      initializing := initializing - {tasks[t].context};
      tasks := tasks - {t};
    }
  }

  // ---- What every step keeps

  lemma AppendBinding(registry: Registry, b: Binding)
    ensures ContextsOf(registry + [b]) == ContextsOf(registry) + {b.context}
    ensures SessionsOf(registry + [b]) == SessionsOf(registry) + {b.session}
    ensures Rooms(registry + [b]) == Rooms(registry) + if b.context.Room? then 1 else 0
    ensures forall c :: Bound(registry + [b], c) ==
                        if Bound(registry, c).Some? || b.context != c then Bound(registry, c) else Some(b.session)
  {
    assert (registry + [b])[..|registry + [b]| - 1] == registry;
  }

  lemma {:induction false} BoundListed(registry: Registry, c: Context)
    ensures Bound(registry, c).Some? <==> c in ContextsOf(registry)
    ensures Bound(registry, c).Some? ==> Binding(c, Bound(registry, c).value) in registry
  {
    if registry != [] {
      BoundListed(registry[..|registry| - 1], c);
      AppendBinding(registry[..|registry| - 1], registry[|registry| - 1]);
      assert registry == registry[..|registry| - 1] + [registry[|registry| - 1]];
    }
  }

  /** What an initialization knows at each stage stays true while others run. */
  predicate TaskFits(task: Task, registry: Registry, live: map<Context, nat>) {
    && (!task.stage.Published? && !task.stage.Ended? ==> task.context !in live)
    && (task.stage.Looked? || task.stage.Admitted? || task.stage.Launched? ==> task.stage.previous == Bound(registry, task.context))
    && (task.stage.Launched? && task.stage.previous.Some? ==> task.stage.session == task.stage.previous.value)
    && (task.stage.Recorded? ==> Bound(registry, task.context) == Some(task.stage.session))
  }

  /** An initialization for each listed context, and none besides. */
  ghost predicate OneEach(initializing: map<Context, nat>, tasks: map<nat, Task>, started: nat) {
    && (forall c :: c in initializing ==> initializing[c] in tasks && tasks[initializing[c]].context == c)
    && (forall t :: t in tasks ==> t < started && tasks[t].context in initializing && initializing[tasks[t].context] == t)
  }

  ghost predicate AllFit(tasks: map<nat, Task>, registry: Registry, live: map<Context, nat>) {
    forall t :: t in tasks ==> TaskFits(tasks[t], registry, live)
  }

  ghost predicate OpenedBound(live: map<Context, nat>, registry: Registry) {
    forall c :: c in live ==> Bound(registry, c) == Some(live[c])
  }

  ghost predicate Inv(w: World) {
    && Decodes(w.registry) && Decodes(w.disk)
    && OneEach(w.initializing, w.tasks, w.started)
    && AllFit(w.tasks, w.registry, w.live)
    && OpenedBound(w.live, w.registry)
    && (w.collected ==> w.closing && w.initializing == map[])
  }

  lemma MoveKeeps(w: World, t: nat, stage: Stage)
    requires Inv(w) && t in w.tasks && TaskFits(Task(w.tasks[t].context, stage), w.registry, w.live)
    ensures Inv(Move(w, t, stage))
  {
    hide Decodes, OpenedBound, TaskFits;
  }

  lemma {:induction false} RecordKeeps(w: World, t: nat, saving: Saving)
    requires Inv(w) && StageOf(w, t).Launched?
    ensures Inv(Recording(w, t, saving)) && w.registry <= Recording(w, t, saving).registry
  {
    hide Decodes, Bound;
    var task := w.tasks[t];
    MoveKeeps(w, t, Ended);
    if task.stage.previous.None? {
      var b := Binding(task.context, task.stage.session);
      AppendBinding(w.registry, b);
      OthersFit(w.tasks, t, w.registry, b, w.live, w.initializing, w.started);
    } else {
      MoveKeeps(w, t, Recorded(task.stage.session));
    }
    hide AllFit, OneEach, OpenedBound, TaskFits;
  }

  /** A binding for the context of one initialization changes nothing that another one knows. */
  lemma OthersFit(tasks: map<nat, Task>, t: nat, registry: Registry, b: Binding, live: map<Context, nat>,
                  initializing: map<Context, nat>, started: nat)
    requires OneEach(initializing, tasks, started) && AllFit(tasks, registry, live) && OpenedBound(live, registry)
    requires t in tasks && tasks[t].stage.Launched? && b == Binding(tasks[t].context, tasks[t].stage.session)
    requires tasks[t].stage.previous.None?
    ensures var after := tasks[t := Task(b.context, Recorded(b.session))];
            OneEach(initializing, after, started) && AllFit(after, registry + [b], live) && OpenedBound(live, registry + [b])
  {
    AppendBinding(registry, b);
    assert TaskFits(tasks[t], registry, live);
    forall u | u in tasks && u != t ensures TaskFits(tasks[u], registry + [b], live) {
      assert TaskFits(tasks[u], registry, live) && tasks[u].context != b.context;
    }
    hide Bound;
  }

  lemma OpenKeeps(w: World, c: Context)
    requires Inv(w)
    ensures Inv(Opening(w, c))
  {
    hide Decodes, OpenedBound;
  }

  lemma PublishKeeps(w: World, t: nat)
    requires Inv(w) && StageOf(w, t).Recorded?
    ensures Inv(Next(w, Publish(t, true)))
  {
    hide Decodes, Bound;
    assert TaskFits(w.tasks[t], w.registry, w.live);
    forall u | u in w.tasks && u != t ensures w.tasks[u].context != w.tasks[t].context {}
  }

  lemma FinishKeeps(w: World, t: nat)
    requires Inv(w)
    ensures Inv(Next(w, Finish(t)))
  {
    hide Decodes, Bound, TaskFits;
  }

  lemma {:induction false} StepKeeps(w: World, e: Event)
    requires Inv(w)
    ensures Inv(Next(w, e)) && w.registry <= Next(w, e).registry
  {
    hide Decodes, Bound, AllFit, OneEach, OpenedBound, Opening, Recording;
    match e
    case Open(c) => OpenKeeps(w, c); OpeningKeepsRegistry(w, c);
    case Record(t, saving) => if StageOf(w, t).Launched? { RecordKeeps(w, t, saving); }
    case Finish(t) => FinishKeeps(w, t);
    case BeginClose =>
    case Collect =>
    case Publish(t, ok) =>
      if StageOf(w, t).Recorded? {
        if ok { PublishKeeps(w, t); } else { EndKeeps(w, t); }
      }
    case _ => PrepareKeeps(w, e);
  }

  lemma OpeningKeepsRegistry(w: World, c: Context)
    ensures Opening(w, c).registry == w.registry
  {
  }

  lemma EndKeeps(w: World, t: nat)
    requires Inv(w) && t in w.tasks
    ensures Inv(Move(w, t, Ended))
  {
    hide Decodes, Bound;
    MoveKeeps(w, t, Ended);
  }

  lemma {:induction false} PrepareKeeps(w: World, e: Event)
    requires Inv(w) && (e.Look? || e.Check? || e.Launch?)
    ensures Inv(Next(w, e)) && Next(w, e).registry == w.registry
  {
    hide Decodes, Bound, Rooms, OneEach, OpenedBound;
    if e.task in w.tasks {
      var t := e.task;
      assert TaskFits(w.tasks[t], w.registry, w.live);
      EndKeeps(w, t);
      if e.Look? && w.tasks[t].stage.Begun? {
        MoveKeeps(w, t, Looked(Bound(w.registry, w.tasks[t].context)));
      } else if e.Check? && w.tasks[t].stage.Looked? {
        MoveKeeps(w, t, Admitted(w.tasks[t].stage.previous));
      } else if e.Launch? && w.tasks[t].stage.Admitted? && e.created.Some? {
        var previous := w.tasks[t].stage.previous;
        MoveKeeps(w, t, Launched(previous, if previous.Some? then previous.value else e.created.value));
      }
    }
  }

  lemma {:induction false} Always(loaded: Registry, events: seq<Event>)
    requires Decodes(loaded)
    ensures Inv(Run(loaded, events))
  {
    if events != [] {
      Always(loaded, events[..|events| - 1]);
      hide Inv, Next;
      StepKeeps(Run(loaded, events[..|events| - 1]), events[|events| - 1]);
    }
  }

  // ---- What it is for

  /** In every interleaving the registry and its file always pass Decode. */
  lemma {:induction false} AlwaysDecodes(loaded: Registry, events: seq<Event>)
    requires Decodes(loaded)
    ensures Decodes(Run(loaded, events).registry) && Decodes(Run(loaded, events).disk)
  {
    hide Decodes, Run;
    Always(loaded, events);
  }

  /** Single flight: at most one initialization per context, and none beside an open connection unless it published it. */
  lemma {:induction false} SingleFlight(loaded: Registry, events: seq<Event>, t: nat, u: nat)
    requires Decodes(loaded)
    requires var w := Run(loaded, events); t in w.tasks && u in w.tasks && w.tasks[t].context == w.tasks[u].context
    ensures t == u
    ensures var w := Run(loaded, events); w.tasks[t].context in w.live ==> w.tasks[t].stage.Published? || w.tasks[t].stage.Ended?
  {
    hide Decodes, Run, Bound;
    Always(loaded, events);
    assert TaskFits(Run(loaded, events).tasks[t], Run(loaded, events).registry, Run(loaded, events).live);
  }

  /** A bound context never changes its session: the registry only grows, and what is open is what is bound. */
  lemma {:induction false} BindingsStay(loaded: Registry, events: seq<Event>, more: seq<Event>)
    requires Decodes(loaded)
    ensures Run(loaded, events).registry <= Run(loaded, events + more).registry
  {
    if more == [] {
      assert events + more == events;
    } else {
      BindingsStay(loaded, events, more[..|more| - 1]);
      assert (events + more)[..|events + more| - 1] == events + more[..|more| - 1];
      Always(loaded, events + more[..|more| - 1]);
      hide Inv, Next;
      StepKeeps(Run(loaded, events + more[..|more| - 1]), more[|more| - 1]);
    }
  }

  lemma {:induction false} BoundStays(registry: Registry, more: Registry, c: Context)
    requires registry <= more && Bound(registry, c).Some?
    ensures Bound(more, c) == Bound(registry, c)
  {
    if |more| > |registry| {
      BoundStays(registry, more[..|more| - 1], c);
    } else {
      assert more == registry;
    }
  }

  /** Two open contexts use two sessions, and an open context uses its bound session from then on. */
  lemma {:induction false} OpenedSessions(loaded: Registry, events: seq<Event>, more: seq<Event>, c: Context, d: Context)
    requires Decodes(loaded) && c in Run(loaded, events).live && d in Run(loaded, events).live
    ensures c != d ==> Run(loaded, events).live[c] != Run(loaded, events).live[d]
    ensures Bound(Run(loaded, events + more).registry, c) == Some(Run(loaded, events).live[c])
  {
    hide Run, Bound, Decodes, OneEach, AllFit, ContextsOf;
    Always(loaded, events);
    var w := Run(loaded, events);
    BindingsStay(loaded, events, more);
    BoundStays(w.registry, Run(loaded, events + more).registry, c);
    BoundListed(w.registry, c);
    BoundListed(w.registry, d);
    if w.live[c] == w.live[d] {
      DistinctSessions(w.registry, Binding(c, w.live[c]), Binding(d, w.live[d]));
    }
  }

  lemma {:induction false} DistinctSessions(registry: Registry, a: Binding, b: Binding)
    requires Decodes(registry) && a in registry && b in registry && a.session == b.session
    ensures a == b
  {
    var rest, last := registry[..|registry| - 1], registry[|registry| - 1];
    assert registry == rest + [last];
    AppendBinding(rest, last);
    FewSessions(rest);
    FewContexts(rest);
    if a in rest && b in rest {
      DistinctSessions(rest, a, b);
    }
  }

  lemma {:induction false} FewSessions(registry: Registry)
    ensures |SessionsOf(registry)| <= |registry|
  {
    if registry != [] {
      FewSessions(registry[..|registry| - 1]);
      AppendBinding(registry[..|registry| - 1], registry[|registry| - 1]);
      assert registry == registry[..|registry| - 1] + [registry[|registry| - 1]];
    }
  }

  lemma {:induction false} FewContexts(registry: Registry)
    ensures |ContextsOf(registry)| <= |registry|
  {
    if registry != [] {
      FewContexts(registry[..|registry| - 1]);
      AppendBinding(registry[..|registry| - 1], registry[|registry| - 1]);
      assert registry == registry[..|registry| - 1] + [registry[|registry| - 1]];
    }
  }

  /** Once Close has collected the open connections, no other is ever opened. */
  lemma {:induction false} ClosedStays(loaded: Registry, events: seq<Event>, more: seq<Event>)
    requires Decodes(loaded) && Run(loaded, events).collected
    ensures Run(loaded, events + more).collected && Run(loaded, events + more).live == Run(loaded, events).live
    ensures Run(loaded, events + more).tasks == map[]
  {
    if more == [] {
      assert events + more == events;
    } else {
      var before := events + more[..|more| - 1];
      ClosedStays(loaded, events, more[..|more| - 1]);
      assert (events + more)[..|events + more| - 1] == before;
      Always(loaded, before);
      assert Run(loaded, events + more) == Next(Run(loaded, before), more[|more| - 1]);
      hide Run, Next, Inv;
      CollectedStep(Run(loaded, before), more[|more| - 1]);
    }
    hide Run, Next, Inv;
    Always(loaded, events + more);
    NoTasks(Run(loaded, events + more));
  }

  /** And Close does collect, once no initialization is left. */
  lemma {:induction false} CloseCollects(loaded: Registry, events: seq<Event>)
    requires Run(loaded, events).initializing == map[]
    ensures Run(loaded, events + [BeginClose] + [Collect]).collected
  {
    RunSnoc(loaded, events, BeginClose);
    RunSnoc(loaded, events + [BeginClose], Collect);
    hide Run;
  }

  lemma NoTasks(w: World)
    requires Inv(w) && w.collected
    ensures w.tasks == map[]
  {
    hide Decodes, Bound, TaskFits;
  }

  lemma CollectedStep(w: World, e: Event)
    requires Inv(w) && w.collected
    ensures Next(w, e).collected && Next(w, e).live == w.live
  {
    NoTasks(w);
    hide Decodes, Bound, TaskFits, AllFit, OneEach, OpenedBound, Rooms;
  }

  // ---- Opening a context

  function Attempt(t: nat, c: Context, session: nat): seq<Event> {
    [Event.Open(c), Look(t), Check(t), Launch(t, Some(session)), Event.Record(t, Saved), Event.Publish(t, true), Event.Finish(t)]
  }

  /** What lets an initialization bind or find its session. */
  predicate MayOpen(registry: Registry, c: Context, session: nat) {
    || Bound(registry, c).Some?
    || (|registry| < 2002 && session !in SessionsOf(registry) && (c.Room? ==> Rooms(registry) < 2000))
  }

  function Beside(w: World, c: Context, stage: Stage): World {
    w.(initializing := w.initializing[c := w.started], tasks := w.tasks[w.started := Task(c, stage)], started := w.started + 1)
  }

  lemma BesideMoves(w: World, c: Context, stage: Stage, next: Stage)
    ensures var v := Beside(w, c, stage);
            StageOf(v, w.started) == stage && w.started in v.tasks && v.tasks[w.started].context == c && Move(v, w.started, next) == Beside(w, c, next)
  {
    assert w.tasks[w.started := Task(c, stage)][w.started := Task(c, next)] == w.tasks[w.started := Task(c, next)];
  }

  lemma RunAttempt(loaded: Registry, events: seq<Event>, a: seq<Event>)
    requires |a| == 7
    ensures Run(loaded, events + a) ==
            Next(Next(Next(Next(Next(Next(Next(Run(loaded, events), a[0]), a[1]), a[2]), a[3]), a[4]), a[5]), a[6])
  {
    hide Next;
    forall i | 0 <= i < 7 ensures Run(loaded, events + a[..i + 1]) == Next(Run(loaded, events + a[..i]), a[i]) {
      assert (events + a[..i + 1])[..|events| + i] == events + a[..i];
    }
    hide Run;
    assert events + a[..0] == events && a[..7] == a;
    assert Run(loaded, events + a[..0 + 1]) == Next(Run(loaded, events), a[0]);
  }

  /**
   * When nothing else runs and the native side and the disk do their part, a context that is neither open nor
   * opening is opened exactly when it is bound, or a binding is left for it and the session is new. It then uses
   * the session it is bound to, in the registry and in its file; otherwise nothing changes.
   */
  lemma {:induction false} OpensExactly(loaded: Registry, events: seq<Event>, c: Context, session: nat)
    requires Decodes(loaded)
    requires var w := Run(loaded, events); !w.closing && c !in w.live && c !in w.initializing
    ensures var w := Run(loaded, events);
            var v := Run(loaded, events + Attempt(w.started, c, session));
            if MayOpen(w.registry, c, session) then
              var previous := Bound(w.registry, c);
              && v.live == w.live[c := if previous.Some? then previous.value else session]
              && v.registry == (if previous.Some? then w.registry else w.registry + [Binding(c, session)]) && v.disk == v.registry
              && v.initializing == w.initializing && v.tasks == w.tasks
            else v == w.(started := w.started + 1)
  {
    var w := Run(loaded, events);
    var t, a := w.started, Attempt(w.started, c, session);
    Always(loaded, events);
    RunAttempt(loaded, events, a);
    FreshTask(w);
    hide Run, Bound, ContextsOf, SessionsOf, Rooms, OneEach, AllFit, OpenedBound;
    var begun := Next(w, Event.Open(c));
    assert begun == Beside(w, c, Begun);
    AttemptRecords(w, c, session);
    hide Next, Inv;
    AttemptFails(w, c);
    var previous := Bound(w.registry, c);
    if previous.Some? {
      AttemptPublishes(w, c, previous.value, w.registry);
    } else {
      AttemptPublishes(w, c, session, w.registry + [Binding(c, session)]);
    }
  }

  lemma FreshTask(w: World)
    requires Inv(w)
    ensures w.started !in w.tasks
  {
    hide Decodes, Bound;
  }

  lemma AttemptRecords(w: World, c: Context, session: nat)
    requires Inv(w) && w.started !in w.tasks
    ensures var t, previous := w.started, Bound(w.registry, c);
            var v := Next(Next(Next(Next(Beside(w, c, Begun), Look(t)), Check(t)), Launch(t, Some(session))), Event.Record(t, Saved));
            v == if !MayOpen(w.registry, c, session) then Beside(w, c, Ended)
                 else if previous.Some? then Beside(w, c, Recorded(previous.value)).(disk := w.registry)
                 else Beside(w, c, Recorded(session)).(registry := w.registry + [Binding(c, session)], disk := w.registry + [Binding(c, session)])
  {
    var t, previous := w.started, Bound(w.registry, c);
    var b := Binding(c, session);
    BoundListed(w.registry, c);
    RegistryGrows(w.registry, b);
    hide Bound, ContextsOf, SessionsOf, Rooms, Decodes, OneEach, AllFit, OpenedBound, Beside, Move;
    BesideMoves(w, c, Begun, Looked(previous));
    BesideMoves(w, c, Looked(previous), Admitted(previous));
    BesideMoves(w, c, Looked(previous), Ended);
    BesideMoves(w, c, Admitted(previous), Launched(previous, if previous.Some? then previous.value else session));
    BesideMoves(w, c, Launched(previous, if previous.Some? then previous.value else session), Ended);
    BesideMoves(w, c, Launched(previous, if previous.Some? then previous.value else session),
                Recorded(if previous.Some? then previous.value else session));
    BesideMoves(w, c, Ended, Ended);
    BesideFields(w, c);
  }

  lemma BesideFields(w: World, c: Context)
    ensures forall stage :: Beside(w, c, stage).registry == w.registry && Beside(w, c, stage).disk == w.disk
  {
  }

  lemma RegistryGrows(registry: Registry, b: Binding)
    requires Decodes(registry)
    ensures b.context !in ContextsOf(registry) ==> (Decodes(registry + [b]) <==> |registry| < 2002 && b.session !in SessionsOf(registry))
  {
    AppendBinding(registry, b);
    hide ContextsOf, SessionsOf;
  }

  lemma AttemptFails(w: World, c: Context)
    requires w.started !in w.tasks && c !in w.initializing
    ensures Next(Next(Beside(w, c, Ended), Event.Publish(w.started, true)), Event.Finish(w.started)) == w.(started := w.started + 1)
  {
    assert w.initializing[c := w.started] - {c} == w.initializing;
    assert w.tasks[w.started := Task(c, Ended)] - {w.started} == w.tasks;
  }

  lemma AttemptPublishes(w: World, c: Context, used: nat, kept: Registry)
    requires w.started !in w.tasks && c !in w.initializing
    ensures Next(Next(Beside(w, c, Recorded(used)).(registry := kept, disk := kept), Event.Publish(w.started, true)), Event.Finish(w.started))
            == w.(registry := kept, disk := kept, live := w.live[c := used], started := w.started + 1)
  {
    BesideMoves(w, c, Recorded(used), Published);
    assert w.initializing[c := w.started] - {c} == w.initializing;
    assert w.tasks[w.started := Task(c, Published)] - {w.started} == w.tasks;
  }

  // ---- The room budget

  predicate NewRoom(task: Task) {
    task.context.Room? && (task.stage.Admitted? || task.stage.Launched?) && task.stage.previous.None?
  }

  /** New rooms that have passed the budget check and are not in the registry yet. */
  function Pending(tasks: map<nat, Task>): set<nat> {
    set t | t in tasks && NewRoom(tasks[t])
  }

  function Committed(w: World): nat {
    Rooms(w.registry) + |Pending(w.tasks)|
  }

  predicate Overdraws(w: World, e: Event) {
    && e.Check? && StageOf(w, e.task).Looked? && w.tasks[e.task].stage.previous.None? && w.tasks[e.task].context.Room?
    && Rooms(w.registry) < ROOM_BUDGET <= Committed(w)
  }

  /**
   * The check counts the rooms in the registry and not those other initializations are about to add. So one
   * step takes the rooms and the pending rooms beyond the budget exactly when it admits a new room while the
   * pending ones already fill it.
   */
  lemma {:induction false} BudgetExact(w: World, e: Event)
    requires Inv(w) && Committed(w) <= ROOM_BUDGET
    ensures Committed(Next(w, e)) > ROOM_BUDGET <==> Overdraws(w, e)
  {
    assert w.started !in w.tasks;
    hide Decodes, Bound, OneEach, AllFit, OpenedBound, Rooms, Pending;
    match e
    case Open(c) => if Opening(w, c) != w { PendingOpen(w.tasks, w.started, c); }
    case Finish(t) => if t in w.tasks && !NewRoom(w.tasks[t]) { PendingDrop(w.tasks, t); }
    case BeginClose =>
    case Collect =>
    case Record(t, saving) => if StageOf(w, t).Launched? { RecordBudget(w, t, saving); }
    case _ => MoveBudget(w, e);
  }

  lemma MoveBudget(w: World, e: Event)
    requires (e.Look? || e.Check? || e.Launch? || e.Publish?) && Committed(w) <= ROOM_BUDGET
    ensures Committed(Next(w, e)) > ROOM_BUDGET <==> Overdraws(w, e)
  {
    hide Bound, Rooms, Pending;
    if e.task in w.tasks {
      PendingMove(w.tasks, e.task, Next(w, e).tasks[e.task].stage);
    }
  }

  lemma PendingOpen(tasks: map<nat, Task>, t: nat, c: Context)
    ensures t !in tasks ==> Pending(tasks[t := Task(c, Begun)]) == Pending(tasks)
  {
  }

  lemma PendingDrop(tasks: map<nat, Task>, t: nat)
    requires t in tasks && !NewRoom(tasks[t])
    ensures Pending(tasks - {t}) == Pending(tasks)
  {
  }

  lemma PendingMove(tasks: map<nat, Task>, t: nat, stage: Stage)
    requires t in tasks
    ensures |Pending(tasks[t := tasks[t].(stage := stage)])| ==
            |Pending(tasks)| - (if NewRoom(tasks[t]) then 1 else 0) + (if NewRoom(tasks[t].(stage := stage)) then 1 else 0)
  {
    var after := tasks[t := tasks[t].(stage := stage)];
    assert Pending(after) - {t} == Pending(tasks) - {t};
    if NewRoom(after[t]) { assert Pending(after) == (Pending(tasks) - {t}) + {t}; }
    if NewRoom(tasks[t]) { assert Pending(tasks) == (Pending(tasks) - {t}) + {t}; }
  }

  lemma RecordBudget(w: World, t: nat, saving: Saving)
    requires StageOf(w, t).Launched?
    ensures Committed(Recording(w, t, saving)) <= Committed(w)
  {
    hide Decodes, Rooms, Pending, Bound, SessionsOf;
    var binding := Binding(w.tasks[t].context, w.tasks[t].stage.session);
    AppendBinding(w.registry, binding);
    PendingMove(w.tasks, t, Ended);
    PendingMove(w.tasks, t, Recorded(binding.session));
    RecordingShape(w, t, saving);
    hide Recording;
  }

  /** A section that records adds at most the binding of its task, and ends with that task failed or recorded. */
  lemma RecordingShape(w: World, t: nat, saving: Saving)
    requires StageOf(w, t).Launched?
    ensures var v, task := Recording(w, t, saving), w.tasks[t];
            || (v.registry == w.registry && (v.tasks == w.tasks[t := task.(stage := Ended)]))
            || (v.tasks == w.tasks[t := task.(stage := Recorded(task.stage.session))]
                && v.registry == (if task.stage.previous.None? then w.registry + [Binding(task.context, task.stage.session)] else w.registry))
  {
    hide Decodes, SessionsOf;
  }

  /** Over a whole run: while no check overdraws, the rooms stay within the budget. */
  lemma {:induction false} BudgetKept(loaded: Registry, events: seq<Event>)
    requires Decodes(loaded) && Rooms(loaded) <= ROOM_BUDGET
    requires forall i :: 0 <= i < |events| ==> !Overdraws(Run(loaded, events[..i]), events[i])
    ensures Rooms(Run(loaded, events).registry) <= Committed(Run(loaded, events)) <= 2000
  {
    if events != [] {
      var before, last := events[..|events| - 1], events[|events| - 1];
      forall i | 0 <= i < |before| ensures before[..i] == events[..i] && before[i] == events[i] {}
      BudgetKept(loaded, before);
      Always(loaded, before);
      BudgetExact(Run(loaded, before), last);
      hide Inv, Next, Rooms, Pending, Overdraws;
    }
  }

  /** So do rooms opened one at a time, none checked while another is pending. */
  lemma {:induction false} SerialBudget(loaded: Registry, events: seq<Event>)
    requires Decodes(loaded) && Rooms(loaded) <= ROOM_BUDGET
    requires forall i :: 0 <= i < |events| ==> events[i].Check? ==> Pending(Run(loaded, events[..i]).tasks) == {}
    ensures Rooms(Run(loaded, events).registry) <= Committed(Run(loaded, events)) <= 2000
  {
    hide Run, Rooms, Pending;
    BudgetKept(loaded, events);
  }

  // ---- What exceeds it

  lemma {:induction false} RoomsAndOthers(registry: Registry)
    requires |ContextsOf(registry)| == |registry|
    ensures |registry| == Rooms(registry) + (if Shared in ContextsOf(registry) then 1 else 0) + (if Control in ContextsOf(registry) then 1 else 0)
  {
    if registry != [] {
      var rest, last := registry[..|registry| - 1], registry[|registry| - 1];
      assert registry == rest + [last];
      AppendBinding(rest, last);
      FewContexts(rest);
      RoomsAndOthers(rest);
    }
  }

  /** At most one of the two other contexts is bound, which leaves place for a further room. */
  predicate Roomy(registry: Registry) {
    Shared !in ContextsOf(registry) || Control !in ContextsOf(registry)
  }

  lemma {:induction false} NewNumber(used: set<nat>) returns (n: nat)
    ensures forall m :: m >= n ==> m !in used
  {
    n := 0;
    if used != {} {
      var last :| last in used;
      var above := NewNumber(used - {last});
      n := if last < above then above else last + 1;
      forall m | m >= n ensures m !in used {
        assert m !in used - {last};
      }
    }
  }

  /** The sessions selected for pending rooms are new ones. */
  ghost predicate NewSessions(registry: Registry, tasks: map<nat, Task>) {
    && (forall t :: t in Pending(tasks) && tasks[t].stage.Launched? ==> tasks[t].stage.session !in SessionsOf(registry))
    && (forall t, u :: t in Pending(tasks) && u in Pending(tasks) && t != u && tasks[t].stage.Launched? && tasks[u].stage.Launched? ==>
          tasks[t].stage.session != tasks[u].stage.session)
  }

  function Selected(tasks: map<nat, Task>): set<nat> {
    set t | t in tasks && tasks[t].stage.Launched? :: tasks[t].stage.session
  }

  lemma LaunchNew(w: World, t: nat) returns (session: nat)
    requires t in Pending(w.tasks) && NewSessions(w.registry, w.tasks)
    ensures var v := Next(w, Launch(t, Some(session)));
            && v.registry == w.registry && Pending(v.tasks) == Pending(w.tasks)
            && NewSessions(v.registry, v.tasks) && v.tasks[t].stage.Launched?
  {
    hide Rooms, Bound, ContextsOf, SessionsOf;
    session := NewNumber(SessionsOf(w.registry) + Selected(w.tasks));
    assert session !in SessionsOf(w.registry) && session !in Selected(w.tasks);
    forall u | u in w.tasks && w.tasks[u].stage.Launched? ensures w.tasks[u].stage.session != session {
      assert w.tasks[u].stage.session in Selected(w.tasks);
    }
    hide Selected;
  }

  lemma RecordNew(w: World, t: nat)
    requires Inv(w) && t in Pending(w.tasks) && w.tasks[t].stage.Launched? && NewSessions(w.registry, w.tasks)
    requires |w.registry| < MAXIMUM_BINDINGS
    ensures var v := Next(w, Record(t, Saved));
            && v.registry == w.registry + [Binding(w.tasks[t].context, w.tasks[t].stage.session)]
            && Pending(v.tasks) == Pending(w.tasks) - {t} && NewSessions(v.registry, v.tasks)
  {
    assert TaskFits(w.tasks[t], w.registry, w.live);
    BoundListed(w.registry, w.tasks[t].context);
    SessionsStayNew(w.registry, w.tasks, t);
    hide Rooms, Bound, ContextsOf, SessionsOf, Decodes, OneEach, AllFit, OpenedBound, Next;
    Appends(w, t);
  }

  lemma SessionsStayNew(registry: Registry, tasks: map<nat, Task>, t: nat)
    requires t in Pending(tasks) && tasks[t].stage.Launched? && NewSessions(registry, tasks)
    ensures var session, after := tasks[t].stage.session, tasks[t := tasks[t].(stage := Recorded(tasks[t].stage.session))];
            && Pending(after) == Pending(tasks) - {t} && NewSessions(registry + [Binding(tasks[t].context, session)], after)
  {
    AppendBinding(registry, Binding(tasks[t].context, tasks[t].stage.session));
    hide SessionsOf;
  }

  /** More pending rooms than the budget has left exceed it as soon as they are recorded with new sessions. */
  lemma {:induction false} RecordedExceed(loaded: Registry, events: seq<Event>) returns (more: seq<Event>)
    requires Decodes(loaded)
    requires var w := Run(loaded, events); NewSessions(w.registry, w.tasks) && Committed(w) > ROOM_BUDGET && Roomy(w.registry)
    ensures forall i :: 0 <= i < |more| ==> more[i].Launch? || more[i].Record?
    ensures Rooms(Run(loaded, events + more).registry) > ROOM_BUDGET
    decreases Pending(Run(loaded, events).tasks)
  {
    hide Run, Next, Rooms, Pending, NewSessions, Roomy;
    var w := Run(loaded, events);
    if Rooms(w.registry) > ROOM_BUDGET {
      more := [];
      assert events + more == events;
    } else {
      Always(loaded, events);
      hide Inv, Decodes;
      var t, session := RecordOne(w);
      var two := [Launch(t, Some(session)), Record(t, Saved)];
      RunTwo(loaded, events, Launch(t, Some(session)), Record(t, Saved));
      more := RecordedExceed(loaded, events + two);
      assert events + two + more == events + (two + more);
      more := two + more;
    }
  }

  lemma {:induction false} RecordOne(w: World) returns (t: nat, session: nat)
    requires Inv(w) && NewSessions(w.registry, w.tasks) && Rooms(w.registry) <= ROOM_BUDGET < Committed(w) && Roomy(w.registry)
    ensures var v := Next(Next(w, Launch(t, Some(session))), Record(t, Saved));
            && NewSessions(v.registry, v.tasks) && Committed(v) == Committed(w) && Roomy(v.registry)
            && t in Pending(w.tasks) && Pending(v.tasks) == Pending(w.tasks) - {t}
  {
    BindingLeft(w.registry);
    hide Rooms, Pending, Roomy, Bound, OneEach, AllFit, OpenedBound, Decodes;
    assert Pending(w.tasks) != {};
    t :| t in Pending(w.tasks);
    session := LaunchNew(w, t);
    var u := Next(w, Launch(t, Some(session)));
    PrepareKeeps(w, Launch(t, Some(session)));
    PendingIsNew(u.tasks, t);
    var b := Binding(u.tasks[t].context, u.tasks[t].stage.session);
    hide Inv, Next, NewSessions;
    RecordNew(u, t);
    RoomAdded(w.registry, b);
  }

  lemma BindingLeft(registry: Registry)
    requires Decodes(registry) && Rooms(registry) <= ROOM_BUDGET && Roomy(registry)
    ensures |registry| < MAXIMUM_BINDINGS
  {
    RoomsAndOthers(registry);
  }

  lemma RoomAdded(registry: Registry, b: Binding)
    requires b.context.Room?
    ensures Rooms(registry + [b]) == Rooms(registry) + 1 && (Roomy(registry) ==> Roomy(registry + [b]))
  {
    AppendBinding(registry, b);
    hide ContextsOf, Rooms;
  }

  lemma PendingIsNew(tasks: map<nat, Task>, t: nat)
    requires t in Pending(tasks)
    ensures t in tasks && NewRoom(tasks[t])
  {
  }

  lemma RunTwo(loaded: Registry, events: seq<Event>, d: Event, e: Event)
    ensures Run(loaded, events + [d, e]) == Next(Next(Run(loaded, events), d), e)
  {
    RunSnoc(loaded, events, d);
    RunSnoc(loaded, events + [d], e);
    assert events + [d] + [e] == events + [d, e];
  }

  lemma RunSnoc(loaded: Registry, events: seq<Event>, e: Event)
    ensures Run(loaded, events + [e]) == Next(Run(loaded, events), e)
  {
    assert (events + [e])[..|events|] == events;
  }

  /** So an overdraw is followed by an excess when its pending rooms are recorded. */
  lemma {:induction false} OverdrawExceeds(loaded: Registry, events: seq<Event>, e: Event) returns (more: seq<Event>)
    requires Decodes(loaded)
    requires var w := Run(loaded, events); Overdraws(w, e) && NewSessions(w.registry, w.tasks) && Roomy(w.registry)
    ensures forall i :: 0 <= i < |more| ==> more[i].Launch? || more[i].Record?
    ensures Rooms(Run(loaded, events + [e] + more).registry) > ROOM_BUDGET
  {
    RunSnoc(loaded, events, e);
    CheckAdds(Run(loaded, events), e);
    hide Run, Next, Rooms, Pending, NewSessions, ContextsOf;
    more := RecordedExceed(loaded, events + [e]);
  }

  lemma CheckAdds(w: World, e: Event)
    requires e.Check? && StageOf(w, e.task).Looked? && w.tasks[e.task].stage.previous.None? && w.tasks[e.task].context.Room?
    requires Rooms(w.registry) < ROOM_BUDGET && NewSessions(w.registry, w.tasks)
    ensures Next(w, e).registry == w.registry && Committed(Next(w, e)) == Committed(w) + 1
    ensures NewSessions(Next(w, e).registry, Next(w, e).tasks)
  {
    hide Rooms, SessionsOf;
    PendingMove(w.tasks, e.task, Admitted(None));
  }

  /** One more new room gets as far as pending. */
  lemma AdmitOne(loaded: Registry, events: seq<Event>) returns (more: seq<Event>)
    requires Decodes(loaded)
    requires var w := Run(loaded, events); !w.closing && Rooms(w.registry) < ROOM_BUDGET && NewSessions(w.registry, w.tasks)
    ensures var w, v := Run(loaded, events), Run(loaded, events + more);
            !v.closing && v.registry == w.registry && NewSessions(v.registry, v.tasks) && Committed(v) == Committed(w) + 1
  {
    var w := Run(loaded, events);
    Always(loaded, events);
    var c := NewContext(w);
    more := [Open(c), Look(w.started), Check(w.started)];
    RunTwo(loaded, events, more[0], more[1]);
    RunSnoc(loaded, events + more[..2], more[2]);
    assert more[..2] == [more[0], more[1]];
    assert events + more == events + more[..2] + [more[2]];
    hide Run, Rooms, Bound, SessionsOf, ContextsOf, Pending, NewSessions, Opening, Inv;
    Looking(w, c);
    CheckAdds(Next(Next(w, more[0]), more[1]), more[2]);
  }

  function Ids(used: set<Context>): set<nat> {
    set c | c in used && c.Room? :: c.id
  }

  lemma NewContext(w: World) returns (c: Context)
    requires Inv(w)
    ensures c.Room? && c !in w.live && c !in w.initializing && w.started !in w.tasks && Bound(w.registry, c) == None
  {
    hide Bound, ContextsOf, Decodes;
    var used := ContextsOf(w.registry) + w.initializing.Keys;
    var id := NewNumber(Ids(used));
    c := Room(id);
    assert c in used ==> id in Ids(used);
    BoundListed(w.registry, c);
  }

  lemma Looking(w: World, c: Context)
    requires !w.closing && c !in w.live && c !in w.initializing && w.started !in w.tasks && NewSessions(w.registry, w.tasks)
    requires Bound(w.registry, c) == None
    ensures var v := Next(Next(w, Open(c)), Look(w.started));
            && !v.closing && v.registry == w.registry && v.tasks == w.tasks[w.started := Task(c, Looked(None))]
            && Pending(v.tasks) == Pending(w.tasks) && NewSessions(v.registry, v.tasks)
  {
    hide Bound, SessionsOf;
  }

  lemma {:induction false} AdmitMany(loaded: Registry, events: seq<Event>) returns (more: seq<Event>)
    requires Decodes(loaded)
    requires var w := Run(loaded, events); !w.closing && Rooms(w.registry) < ROOM_BUDGET && NewSessions(w.registry, w.tasks)
    ensures var w, v := Run(loaded, events), Run(loaded, events + more);
            v.registry == w.registry && NewSessions(v.registry, v.tasks) && Committed(v) > ROOM_BUDGET
    decreases ROOM_BUDGET - Committed(Run(loaded, events))
  {
    hide Run, Rooms, Pending, NewSessions;
    if Committed(Run(loaded, events)) > ROOM_BUDGET {
      more := [];
      assert events + more == events;
    } else {
      var one := AdmitOne(loaded, events);
      more := AdmitMany(loaded, events + one);
      assert events + one + more == events + (one + more);
      more := one + more;
    }
  }

  /** A registry comes to exceed the budget in some run exactly when a room can be added and a binding is left for one more. */
  lemma {:induction false} ExceedableExactly(loaded: Registry)
    requires Decodes(loaded)
    ensures (exists events :: Rooms(Run(loaded, events).registry) > 2000)
            <==> Rooms(loaded) > 2000 || (Rooms(loaded) < 2000 && Roomy(loaded))
  {
    hide Rooms, Pending, Roomy, Decodes;
    assert Run(loaded, []) == Start(loaded);
    if events :| Rooms(Run(loaded, events).registry) > ROOM_BUDGET {
      if Rooms(loaded) <= ROOM_BUDGET && !(Rooms(loaded) < ROOM_BUDGET && Roomy(loaded)) {
        FullStays(loaded, events);
        assert false;
      }
    }
    if Rooms(loaded) < ROOM_BUDGET && Roomy(loaded) {
      NothingPending(loaded);
      hide Run;
      var more := AdmitMany(loaded, []);
      var rest := RecordedExceed(loaded, [] + more);
      assert Rooms(Run(loaded, [] + more + rest).registry) > ROOM_BUDGET;
    }
  }

  lemma NothingPending(loaded: Registry)
    ensures Pending(Start(loaded).tasks) == {} && NewSessions(Start(loaded).registry, Start(loaded).tasks)
  {
  }

  /** With exactly 2000 rooms, or with both other contexts bound, no run exceeds the budget. */
  lemma {:induction false} FullStays(loaded: Registry, events: seq<Event>)
    requires Decodes(loaded) && Rooms(loaded) <= ROOM_BUDGET && (Rooms(loaded) == ROOM_BUDGET || !Roomy(loaded))
    ensures Rooms(Run(loaded, events).registry) <= ROOM_BUDGET
  {
    if Rooms(loaded) == ROOM_BUDGET {
      forall i | 0 <= i < |events| ensures !Overdraws(Run(loaded, events[..i]), events[i]) {
        BindingsStay(loaded, [], events[..i]);
        assert [] + events[..i] == events[..i];
        RoomsGrow(loaded, Run(loaded, events[..i]).registry);
      }
      BudgetKept(loaded, events);
    } else {
      Always(loaded, events);
      BindingsStay(loaded, [], events);
      assert [] + events == events;
      var registry := Run(loaded, events).registry;
      RoomsAndOthers(registry);
      assert ContextsOf(loaded) <= ContextsOf(registry);
    }
  }

  lemma {:induction false} RoomsGrow(registry: Registry, more: Registry)
    requires registry <= more
    ensures Rooms(registry) <= Rooms(more)
  {
    if |more| > |registry| {
      RoomsGrow(registry, more[..|more| - 1]);
    } else {
      assert more == registry;
    }
  }

  function Full(n: nat): Registry {
    seq(n, i requires 0 <= i < n => Binding(Room(i), i))
  }

  lemma {:induction false} FullDecodes(n: nat)
    ensures Rooms(Full(n)) == n && |ContextsOf(Full(n))| == n && |SessionsOf(Full(n))| == n
    ensures forall i :: i >= n ==> Bound(Full(n), Room(i)) == None && Room(i) !in ContextsOf(Full(n)) && i !in SessionsOf(Full(n))
  {
    if n > 0 {
      FullDecodes(n - 1);
      assert Full(n) == Full(n - 1) + [Binding(Room(n - 1), n - 1)];
      AppendBinding(Full(n - 1), Binding(Room(n - 1), n - 1));
    }
  }

  /** With 1999 rooms saved, two rooms opened together are both admitted: the registry then holds 2001. */
  lemma BudgetExceeded()
    ensures exists loaded, events :: Decodes(loaded) && Rooms(loaded) < ROOM_BUDGET && Rooms(Run(loaded, events).registry) > ROOM_BUDGET
  {
    FullDecodes(1999);
    hide Run, Full;
    TwoRooms(Full(1999));
  }

  const BOTH := [Open(Room(1999)), Open(Room(2000)), Look(0), Look(1), Check(0), Check(1),
                 Launch(0, Some(1999)), Launch(1, Some(2000)), Record(0, Saved), Record(1, Saved)]

  lemma TwoRooms(loaded: Registry)
    requires loaded == Full(1999)
    ensures Decodes(loaded) && Rooms(Run(loaded, BOTH).registry) == 2001
  {
    FullDecodes(1999);
    forall i | 0 <= i < 10 ensures Run(loaded, BOTH[..i + 1]) == Next(Run(loaded, BOTH[..i]), BOTH[i]) {
      assert BOTH[..i + 1][..i] == BOTH[..i];
    }
    assert BOTH[..10] == BOTH;
    hide Run;
    var w := Start(loaded);
    assert Run(loaded, BOTH[..0]) == w;
    TwoRoomsAdmitted(loaded);
    TwoRoomsLaunched(loaded);
    TwoRoomsRecorded(loaded);
  }

  function Pair(loaded: Registry, registry: Registry, first: Stage, second: Stage): World {
    World(registry, registry, map[], map[Room(1999) := 0, Room(2000) := 1],
          map[0 := Task(Room(1999), first), 1 := Task(Room(2000), second)], 2, false, false)
  }

  lemma PairMoves(loaded: Registry, registry: Registry, x: Stage, y: Stage)
    ensures var w := Pair(loaded, registry, x, y);
            && StageOf(w, 0) == x && StageOf(w, 1) == y && w.registry == registry
            && 0 in w.tasks && w.tasks[0].context == Room(1999) && 1 in w.tasks && w.tasks[1].context == Room(2000)
            && (forall z :: Move(w, 0, z) == Pair(loaded, registry, z, y)) && (forall z :: Move(w, 1, z) == Pair(loaded, registry, x, z))
  {
  }

  lemma TwoRoomsAdmitted(loaded: Registry)
    requires Bound(loaded, Room(1999)) == None && Bound(loaded, Room(2000)) == None
    ensures Next(Next(Start(loaded), BOTH[0]), BOTH[1]) == Pair(loaded, loaded, Begun, Begun)
    ensures Next(Next(Pair(loaded, loaded, Begun, Begun), BOTH[2]), BOTH[3]) == Pair(loaded, loaded, Looked(None), Looked(None))
  {
    hide Bound;
    PairMoves(loaded, loaded, Begun, Begun);
    PairMoves(loaded, loaded, Looked(None), Begun);
    hide Move;
  }

  lemma TwoRoomsLaunched(loaded: Registry)
    requires Rooms(loaded) == 1999
    ensures Next(Next(Pair(loaded, loaded, Looked(None), Looked(None)), BOTH[4]), BOTH[5])
            == Pair(loaded, loaded, Admitted(None), Admitted(None))
    ensures Next(Next(Pair(loaded, loaded, Admitted(None), Admitted(None)), BOTH[6]), BOTH[7])
            == Pair(loaded, loaded, Launched(None, 1999), Launched(None, 2000))
  {
    hide Rooms, Bound, Move, Pair;
    PairMoves(loaded, loaded, Looked(None), Looked(None));
    PairMoves(loaded, loaded, Admitted(None), Looked(None));
    PairMoves(loaded, loaded, Admitted(None), Admitted(None));
    PairMoves(loaded, loaded, Launched(None, 1999), Admitted(None));
  }

  lemma DecodesAppend(registry: Registry, b: Binding)
    requires Decodes(registry) && |registry| < MAXIMUM_BINDINGS
    requires b.context !in ContextsOf(registry) && b.session !in SessionsOf(registry)
    ensures Decodes(registry + [b])
  {
    AppendBinding(registry, b);
    hide ContextsOf, SessionsOf;
  }

  lemma Appends(w: World, t: nat)
    requires StageOf(w, t).Launched? && w.tasks[t].stage.previous.None? && Decodes(w.registry) && |w.registry| < MAXIMUM_BINDINGS
    requires w.tasks[t].context !in ContextsOf(w.registry) && w.tasks[t].stage.session !in SessionsOf(w.registry)
    ensures Next(w, Record(t, Saved)).registry == w.registry + [Binding(w.tasks[t].context, w.tasks[t].stage.session)]
    ensures Next(w, Record(t, Saved)).tasks == w.tasks[t := w.tasks[t].(stage := Recorded(w.tasks[t].stage.session))]
  {
    DecodesAppend(w.registry, Binding(w.tasks[t].context, w.tasks[t].stage.session));
    hide Decodes, Rooms, Bound, ContextsOf, SessionsOf;
    assert Next(w, Record(t, Saved)) == Recording(w, t, Saved);
    hide Next;
  }

  lemma TwoRoomsRecorded(loaded: Registry)
    requires |loaded| == 1999 && Decodes(loaded) && Rooms(loaded) == 1999
    requires forall i :: i >= 1999 ==> Room(i) !in ContextsOf(loaded) && i !in SessionsOf(loaded)
    ensures var w := Next(Next(Pair(loaded, loaded, Launched(None, 1999), Launched(None, 2000)), BOTH[8]), BOTH[9]);
            Rooms(w.registry) == 2001
  {
    hide Decodes, Rooms, Bound, ContextsOf, SessionsOf, Next;
    var a, b := Binding(Room(1999), 1999), Binding(Room(2000), 2000);
    AppendBinding(loaded, a);
    AppendBinding(loaded + [a], b);
    DecodesAppend(loaded, a);
    var w := Pair(loaded, loaded, Launched(None, 1999), Launched(None, 2000));
    Appends(w, 0);
    Appends(Next(w, Record(0, Saved)), 1);
  }
}

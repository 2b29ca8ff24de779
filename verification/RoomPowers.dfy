/**
 * RoomState.cs, Rooms.cs, AuthorityValues.cs and RoomAccess.cs: the integer levels of a Matrix room, the grants
 * derived from them and the change of one member's level. Defaults are those of the m.room.power_levels event
 * in the Client-Server API v1.12, section "Room Events"; creators are above all levels in room version 12.
 */
module RoomPowers {
  import opened Prelude

  const MAX_WIRE := 9007199254740991

  type User = string

  datatype Value = Null | Number(n: int) | Other

  /** An object of levels by name: "users" or "events". */
  datatype Table = Missing | NullTable | Entries(entries: map<string, Value>) | Malformed

  /** The content of m.room.power_levels. */
  datatype Levels = Levels(fields: map<string, Value>, users: Table, events: Table)

  // ---- What an action requires, by the specification

  datatype Action = Send(kind: string) | ChangeState(kind: string) | Invite | Kick | Ban | Redact

  function EntriesOf(t: Table): map<string, Value> {
    if t.Entries? then t.entries else map[]
  }

  function DefaultOf(entries: map<string, Value>, key: string, fallback: int): int {
    if key in entries && entries[key].Number? then entries[key].n else fallback
  }

  function Required(p: Levels, action: Action): int {
    match action
    case Send(kind) => DefaultOf(EntriesOf(p.events), kind, DefaultOf(p.fields, "events_default", 0))
    case ChangeState(kind) => DefaultOf(EntriesOf(p.events), kind, DefaultOf(p.fields, "state_default", 50))
    case Invite => DefaultOf(p.fields, "invite", 0)
    case Kick => DefaultOf(p.fields, "kick", 50)
    case Ban => DefaultOf(p.fields, "ban", 50)
    case Redact => DefaultOf(p.fields, "redact", 50)
  }

  function UserLevel(p: Levels, user: User): int {
    DefaultOf(EntriesOf(p.users), user, DefaultOf(p.fields, "users_default", 0))
  }

  /** The values that the specification gives where the content names none. */
  lemma SpecifiedDefaults(p: Levels, kind: string, user: User)
    requires p.fields == map[] && p.users.Missing? && p.events.Missing?
    ensures Required(p, Send(kind)) == 0 && Required(p, ChangeState(kind)) == 50 && Required(p, Invite) == 0
    ensures Required(p, Kick) == 50 && Required(p, Ban) == 50 && Required(p, Redact) == 50 && UserLevel(p, user) == 0
  {
  }

  // ---- RoomState

  function Min(a: int, b: int): int { if a < b then a else b }

  function Max(a: int, b: int): int { if a < b then b else a }

  predicate Representable(n: int) {
    -MAX_WIRE <= n <= MAX_WIRE
  }

  function Level(entries: map<string, Value>, key: string, fallback: int, nullish: bool): Option<int> {
    if key !in entries || (nullish && entries[key].Null?) then Some(fallback)
    else if entries[key].Number? && Representable(entries[key].n) then Some(entries[key].n)
    else None
  }

  predicate Special(name: string) {
    name == "m.room.message" || name == "m.reaction"
  }

  datatype Powers = Powers(ownerLevel: int, ceiling: int, ordinary: int, message: int, reaction: int)

  predicate Parses(entries: map<string, Value>, key: string, nullish: bool) {
    Level(entries, key, 0, nullish).Some?
  }

  predicate FieldsParse(p: Levels) {
    && Parses(p.fields, "users_default", false) && Parses(p.fields, "events_default", false) && Parses(p.fields, "state_default", false)
    && Parses(p.fields, "invite", true) && Parses(p.fields, "kick", true) && Parses(p.fields, "ban", true) && Parses(p.fields, "redact", true)
  }

  predicate EventsParse(events: map<string, Value>) {
    forall kind :: kind in events ==> Parses(events, kind, false)
  }

  /** What bounds the ceiling: the named fields, and the listed events other than messages and reactions. */
  datatype Threshold = Field(key: string) | Event(kind: string)

  predicate Bounds(p: Levels, t: Threshold) {
    match t
    case Field(key) => key == "invite" || key == "kick" || key == "ban" || key == "redact" || key == "state_default"
    case Event(kind) => kind in EntriesOf(p.events) && !Special(kind)
  }

  function LevelOf(p: Levels, t: Threshold): int {
    match t
    case Field(key) => DefaultOf(p.fields, key, if key == "invite" then 0 else 50)
    case Event(kind) => DefaultOf(EntriesOf(p.events), kind, 0)
  }

  /** One below the lowest threshold. */
  ghost predicate IsCeiling(p: Levels, ceiling: int) {
    && (forall t :: Bounds(p, t) ==> ceiling < LevelOf(p, t))
    && (exists t :: Bounds(p, t) && ceiling + 1 == LevelOf(p, t))
  }

  /** The lowest threshold among the named fields and the given kinds of event. */
  ghost predicate IsLowest(p: Levels, kinds: set<string>, lowest: int) {
    && (forall t: Threshold :: Bounds(p, t) && (t.Event? ==> t.kind in kinds) ==> lowest <= LevelOf(p, t))
    && (exists t :: Bounds(p, t) && lowest == LevelOf(p, t))
  }

  lemma {:induction false} HasLowest(p: Levels, kinds: set<string>) returns (lowest: int)
    ensures IsLowest(p, kinds, lowest)
  {
    if kinds == {} {
      var invite, kick, ban, redact, state := LevelOf(p, Field("invite")), LevelOf(p, Field("kick")), LevelOf(p, Field("ban")),
          LevelOf(p, Field("redact")), LevelOf(p, Field("state_default"));
      lowest := Min(Min(invite, kick), Min(Min(ban, redact), state));
    } else {
      var kind :| kind in kinds;
      lowest := HasLowest(p, kinds - {kind});
      if Bounds(p, Event(kind)) {
        lowest := Min(lowest, LevelOf(p, Event(kind)));
      }
    }
  }

  /** Every content has one ceiling. */
  ghost function CeilingOf(p: Levels): (ceiling: int)
    ensures IsCeiling(p, ceiling) && forall other :: IsCeiling(p, other) ==> other == ceiling
  {
    assert exists c :: IsCeiling(p, c) by {
      var lowest := HasLowest(p, EntriesOf(p.events).Keys);
      assert IsCeiling(p, lowest - 1);
    }
    var c :| IsCeiling(p, c);
    c
  }

  ghost predicate Valid(p: Levels, owner: User) {
    && !p.users.Malformed? && !p.events.Malformed? && FieldsParse(p) && Parses(EntriesOf(p.users), owner, false)
    && EventsParse(EntriesOf(p.events)) && forall t :: Bounds(p, t) ==> LevelOf(p, t) > -MAX_WIRE
  }

  /** The lowest threshold of the listed events, starting from the lowest of the named fields. */
  method LowestEvent(events: map<string, Value>, start: int) returns (r: Option<int>)
    ensures r.None? <==> exists kind :: kind in events && !Special(kind) && !Parses(events, kind, false)
    ensures r.Some? ==> r.value <= start && forall kind :: kind in events && !Special(kind) ==> r.value <= DefaultOf(events, kind, 0)
    ensures r.Some? ==> r.value == start || exists kind :: kind in events && !Special(kind) && r.value == DefaultOf(events, kind, 0)
  {
    hide Special;
    var lowest, failed := start, false;
    var remaining := events.Keys;
    while remaining != {}
      invariant remaining <= events.Keys && lowest <= start
      invariant failed <==> exists kind :: kind in events && kind !in remaining && !Special(kind) && !Parses(events, kind, false)
      invariant !failed ==> forall kind :: kind in events && kind !in remaining && !Special(kind) ==> lowest <= DefaultOf(events, kind, 0)
      invariant lowest == start || exists kind :: kind in events && !Special(kind) && lowest == DefaultOf(events, kind, 0)
      decreases |remaining|
    {
      var kind :| kind in remaining;
      remaining := remaining - {kind};
      if !Special(kind) {
        var level := Level(events, kind, 0, false);
        if level.None? {
          failed := true;
        } else if level.value < lowest {
          lowest := level.value;
        }
      }
    }
    r := if failed then None else Some(lowest);
  }

  method ReadPowers(p: Levels, owner: User) returns (r: Option<Powers>)
    ensures r.Some? <==> Valid(p, owner)
    ensures r.Some? ==>
              && r.value.ownerLevel == UserLevel(p, owner) && IsCeiling(p, r.value.ceiling)
              && r.value.ordinary == DefaultOf(p.fields, "events_default", 0)
              && r.value.message == Required(p, Send("m.room.message")) && r.value.reaction == Required(p, Send("m.reaction"))
  {
    if p.users.Malformed? || p.events.Malformed? {
      return None;
    }
    var defaults, ordinary, state := Level(p.fields, "users_default", 0, false), Level(p.fields, "events_default", 0, false),
        Level(p.fields, "state_default", 50, false);
    var events := EntriesOf(p.events);
    if defaults.None? || ordinary.None? || state.None? {
      return None;
    }
    var ownerLevel, message, reaction := Level(EntriesOf(p.users), owner, defaults.value, false),
        Level(events, "m.room.message", ordinary.value, false), Level(events, "m.reaction", ordinary.value, false);
    if ownerLevel.None? || message.None? || reaction.None? {
      return None;
    }
    var fields := LowestField(p);
    if fields.None? {
      return None;
    }
    var lowest := LowestEvent(events, fields.value);
    EventsAllParse(events);
    if lowest.None? {
      return None;
    }
    LowestIsCeiling(p, fields.value, lowest.value);
    if lowest.value - 1 < -MAX_WIRE {
      return None;
    }
    return Some(Powers(ownerLevel.value, lowest.value - 1, ordinary.value, message.value, reaction.value));
  }

  lemma EventsAllParse(events: map<string, Value>)
    ensures EventsParse(events) <==>
            Parses(events, "m.room.message", false) && Parses(events, "m.reaction", false)
            && !exists kind :: kind in events && !Special(kind) && !Parses(events, kind, false)
  {
  }

  ghost predicate IsLowestField(p: Levels, lowest: int) {
    && (forall t: Threshold :: t.Field? && Bounds(p, t) ==> lowest <= LevelOf(p, t))
    && (exists t: Threshold :: t.Field? && Bounds(p, t) && lowest == LevelOf(p, t))
  }

  method LowestField(p: Levels) returns (r: Option<int>)
    requires Parses(p.fields, "state_default", false)
    ensures r.Some? <==>
            Parses(p.fields, "invite", true) && Parses(p.fields, "kick", true) && Parses(p.fields, "ban", true) && Parses(p.fields, "redact", true)
    ensures r.Some? ==> IsLowestField(p, r.value)
  {
    var invite, kick, ban, redact, state := Level(p.fields, "invite", 0, true), Level(p.fields, "kick", 50, true),
        Level(p.fields, "ban", 50, true), Level(p.fields, "redact", 50, true), Level(p.fields, "state_default", 50, false);
    if invite.None? || kick.None? || ban.None? || redact.None? {
      return None;
    }
    var lowest := Min(Min(invite.value, kick.value), Min(Min(ban.value, redact.value), state.value));
    assert LevelOf(p, Field("invite")) == invite.value && LevelOf(p, Field("kick")) == kick.value && LevelOf(p, Field("ban")) == ban.value;
    assert LevelOf(p, Field("redact")) == redact.value && LevelOf(p, Field("state_default")) == state.value;
    return Some(lowest);
  }

  lemma LowestIsCeiling(p: Levels, fields: int, lowest: int)
    requires IsLowestField(p, fields)
    requires lowest <= fields && forall kind :: kind in EntriesOf(p.events) && !Special(kind) ==> lowest <= DefaultOf(EntriesOf(p.events), kind, 0)
    requires lowest == fields || exists kind :: kind in EntriesOf(p.events) && !Special(kind) && lowest == DefaultOf(EntriesOf(p.events), kind, 0)
    ensures IsCeiling(p, lowest - 1) && (lowest > -MAX_WIRE <==> forall t :: Bounds(p, t) ==> LevelOf(p, t) > -MAX_WIRE)
  {
    forall t | Bounds(p, t) ensures lowest <= LevelOf(p, t) {
      if t.Event? { assert LevelOf(p, t) == DefaultOf(EntriesOf(p.events), t.kind, 0); }
    }
    if lowest != fields {
      var kind :| kind in EntriesOf(p.events) && !Special(kind) && lowest == DefaultOf(EntriesOf(p.events), kind, 0);
      assert Bounds(p, Event(kind)) && LevelOf(p, Event(kind)) == lowest;
    }
  }

  // ---- Creators

  /** additional holds None for an entry that is no user identifier. */
  datatype Creation = Creation(sender: Option<User>, version12: bool, additional: seq<Option<User>>)

  predicate CreationValid(c: Option<Creation>) {
    && c.Some? && c.value.sender.Some?
    && (c.value.version12 ==> forall i :: 0 <= i < |c.value.additional| ==> c.value.additional[i].Some?)
  }

  predicate IsCreator(c: Creation, user: User) {
    c.version12 && (c.sender == Some(user) || Some(user) in c.additional)
  }

  function Added(users: seq<User>, more: seq<Option<User>>): (r: seq<User>)
    requires Distinct(users) && forall i :: 0 <= i < |more| ==> more[i].Some?
    ensures Distinct(r) && forall user :: user in r <==> user in users || Some(user) in more
  {
    if more == [] then users
    else
      var before, last := Added(users, more[..|more| - 1]), more[|more| - 1].value;
      assert more == more[..|more| - 1] + [Some(last)];
      if last in before then before else before + [last]
  }

  function CreatorsOf(c: Creation): (r: seq<User>)
    requires CreationValid(Some(c))
    ensures Distinct(r) && forall user :: user in r <==> IsCreator(c, user)
  {
    if c.version12 then Added([c.sender.value], c.additional) else []
  }

  method Creators(c: Option<Creation>) returns (r: Option<seq<User>>)
    ensures r.Some? <==> CreationValid(c)
    ensures r.Some? ==> r.value == CreatorsOf(c.value)
  {
    if c.None? || c.value.sender.None? {
      return None;
    }
    if !c.value.version12 {
      return Some([]);
    }
    var result := [c.value.sender.value];
    var additional := c.value.additional;
    for i := 0 to |additional|
      invariant forall j :: 0 <= j < i ==> additional[j].Some?
      invariant result == Added([c.value.sender.value], additional[..i])
    {
      if additional[i].None? {
        return None;
      }
      assert additional[..i + 1][..i] == additional[..i];
      if additional[i].value !in result {
        result := result + [additional[i].value];
      }
    }
    assert additional[..|additional|] == additional;
    return Some(result);
  }

  // ---- Rooms

  datatype Membership = Join | Invited | Leave | Banned | Unsupported

  datatype Room = Room(creation: Option<Creation>, levels: Option<Levels>, members: map<User, Membership>)

  /** power is None for a creator. */
  datatype Facts = Facts(creator: bool, power: Option<int>, creators: seq<User>, read: int, reply: int, invite: int)

  ghost predicate Readable(room: Room, user: User) {
    user in room.members && room.members[user].Join? && room.levels.Some? && Valid(room.levels.value, user) && CreationValid(room.creation)
  }

  function LowestSend(p: Levels): int {
    Min(DefaultOf(p.fields, "events_default", 0), Min(Required(p, Send("m.room.message")), Required(p, Send("m.reaction"))))
  }

  /** What NativeRoom reports of a room to one of its members. */
  ghost predicate Describes(room: Room, user: User, f: Facts) {
    && Readable(room, user)
    && (forall u :: u in f.creators <==> IsCreator(room.creation.value, u))
    && f.creator == IsCreator(room.creation.value, user)
    && f.power == (if f.creator then None else Some(UserLevel(room.levels.value, user)))
    && (exists ceiling :: IsCeiling(room.levels.value, ceiling)
          && f.read == Min(Min(if f.creator then MAX_WIRE else UserLevel(room.levels.value, user), ceiling), LowestSend(room.levels.value) - 1))
    && f.reply == Max(Required(room.levels.value, Send("m.room.message")), Required(room.levels.value, Send("m.reaction")))
    && f.invite == Required(room.levels.value, Invite) && f.read >= -MAX_WIRE
  }

  ghost predicate Known(room: Room, user: User) {
    Readable(room, user) && LowestSend(room.levels.value) > -MAX_WIRE
  }

  ghost function FactsOf(room: Room, user: User): (f: Facts)
    requires Known(room, user)
    ensures Describes(room, user, f)
  {
    var p, creator := room.levels.value, IsCreator(room.creation.value, user);
    CeilingRepresentable(p, user, CeilingOf(p));
    Facts(creator, if creator then None else Some(UserLevel(p, user)), CreatorsOf(room.creation.value),
          Min(Min(if creator then MAX_WIRE else UserLevel(p, user), CeilingOf(p)), LowestSend(p) - 1),
          Max(Required(p, Send("m.room.message")), Required(p, Send("m.reaction"))), Required(p, Invite))
  }

  method NativeRoom(room: Room, user: User) returns (r: Option<Facts>)
    ensures r.Some? <==> Known(room, user)
    ensures r.Some? ==> r.value == FactsOf(room, user) && Describes(room, user, r.value)
  {
    if user !in room.members || !room.members[user].Join? || room.levels.None? {
      return None;
    }
    hide Valid, IsCeiling;
    var p := room.levels.value;
    var levels := ReadPowers(p, user);
    if levels.None? {
      return None;
    }
    var creators := Creators(room.creation);
    if creators.None? {
      return None;
    }
    var creator := user in creators.value;
    var read := Min(Min(if creator then MAX_WIRE else levels.value.ownerLevel, levels.value.ceiling),
                    Min(levels.value.ordinary - 1, Min(levels.value.message - 1, levels.value.reaction - 1)));
    CeilingRepresentable(p, user, levels.value.ceiling);
    if read < -MAX_WIRE {
      return None;
    }
    var invite := Level(p.fields, "invite", 0, true);
    InviteParses(p, user);
    return Some(Facts(creator, if creator then None else Some(levels.value.ownerLevel), creators.value, read,
                      Max(levels.value.message, levels.value.reaction), invite.value));
  }

  lemma CeilingRepresentable(p: Levels, user: User, ceiling: int)
    requires Valid(p, user) && IsCeiling(p, ceiling)
    ensures ceiling >= -MAX_WIRE && UserLevel(p, user) >= -MAX_WIRE
  {
  }

  lemma InviteParses(p: Levels, user: User)
    requires Valid(p, user)
    ensures Level(p.fields, "invite", 0, true) == Some(Required(p, Invite))
  {
  }

  datatype Observed = Observed(membership: Membership, creator: bool, power: Option<int>, read: int, reply: int)

  /** What MembershipState reports of a member. */
  ghost predicate Observes(room: Room, target: User, o: Observed) {
    && room.levels.Some? && Valid(room.levels.value, target) && CreationValid(room.creation)
    && o.membership == (if target in room.members then room.members[target] else Leave) && !o.membership.Unsupported?
    && o.creator == IsCreator(room.creation.value, target)
    && o.power == (if o.creator then None else Some(UserLevel(room.levels.value, target)))
    && (exists ceiling :: IsCeiling(room.levels.value, ceiling) && o.read == Min(ceiling, LowestSend(room.levels.value) - 1))
    && o.reply == Max(Required(room.levels.value, Send("m.room.message")), Required(room.levels.value, Send("m.reaction")))
  }

  ghost predicate Seen(room: Room, target: User) {
    && room.levels.Some? && Valid(room.levels.value, target) && CreationValid(room.creation)
    && (target in room.members ==> !room.members[target].Unsupported?)
  }

  /** A read grant is confirmed up to this level, which is below everything guarded (BelowAll). */
  ghost function ReadLimit(p: Levels): int {
    Min(CeilingOf(p), LowestSend(p) - 1)
  }

  ghost function ObservedOf(room: Room, target: User): (o: Observed)
    requires Seen(room, target)
    ensures Observes(room, target, o)
  {
    var p, creator := room.levels.value, IsCreator(room.creation.value, target);
    Observed(if target in room.members then room.members[target] else Leave, creator,
             if creator then None else Some(UserLevel(p, target)), ReadLimit(p),
             Max(Required(p, Send("m.room.message")), Required(p, Send("m.reaction"))))
  }

  method MembershipState(room: Room, target: User) returns (r: Option<Observed>)
    ensures r.Some? <==> Seen(room, target)
    ensures r.Some? ==> r.value == ObservedOf(room, target) && Observes(room, target, r.value)
  {
    hide Valid, IsCeiling;
    var membership := if target in room.members then room.members[target] else Leave;
    if membership.Unsupported? || room.levels.None? {
      return None;
    }
    var levels := ReadPowers(room.levels.value, target);
    var creators := Creators(room.creation);
    if levels.None? || creators.None? {
      return None;
    }
    var creator := target in creators.value;
    var read := Min(levels.value.ceiling, Min(levels.value.ordinary - 1, Min(levels.value.message - 1, levels.value.reaction - 1)));
    return Some(Observed(membership, creator, if creator then None else Some(levels.value.ownerLevel), read,
                         Max(levels.value.message, levels.value.reaction)));
  }

  /** A level at or below the ceiling and below the sending levels allows none of the guarded actions. */
  lemma BelowAll(p: Levels, user: User, ceiling: int, level: int, action: Action)
    requires Valid(p, user) && IsCeiling(p, ceiling) && level <= ceiling && level < LowestSend(p)
    ensures level < Required(p, action)
  {
    assert Bounds(p, Field("invite")) && Bounds(p, Field("kick")) && Bounds(p, Field("ban")) && Bounds(p, Field("redact"));
    assert Bounds(p, Field("state_default"));
    assert ceiling < LevelOf(p, Field("invite")) && ceiling < LevelOf(p, Field("kick")) && ceiling < LevelOf(p, Field("ban"));
    assert ceiling < LevelOf(p, Field("redact")) && ceiling < LevelOf(p, Field("state_default"));
    if action.Send? || action.ChangeState? {
      var kind := action.kind;
      if kind in EntriesOf(p.events) {
        assert Parses(EntriesOf(p.events), kind, false);
        assert EntriesOf(p.events)[kind].Number?;
        if !Special(kind) {
          assert Bounds(p, Event(kind)) && LevelOf(p, Event(kind)) == EntriesOf(p.events)[kind].n;
        }
      }
    }
  }

  /**
   * A read grant lets its holder send, invite, kick, ban, redact or change state in no case, and never exceeds
   * the level of the authorizer.
   */
  lemma ReadGrantSafe(room: Room, user: User, f: Facts, action: Action)
    requires Describes(room, user, f)
    ensures f.read < Required(room.levels.value, action) && (f.power.Some? ==> f.read <= f.power.value)
  {
    hide Valid, IsCeiling, Required, LowestSend;
    var ceiling :| IsCeiling(room.levels.value, ceiling)
      && f.read == Min(Min(if f.creator then MAX_WIRE else UserLevel(room.levels.value, user), ceiling), LowestSend(room.levels.value) - 1);
    BelowAll(room.levels.value, user, ceiling, f.read, action);
  }

  /** And a reply grant allows both kinds of message, at the lowest level that does. */
  lemma ReplyGrantExact(room: Room, user: User, f: Facts, level: int)
    requires Describes(room, user, f)
    ensures level >= f.reply <==>
            level >= Required(room.levels.value, Send("m.room.message")) && level >= Required(room.levels.value, Send("m.reaction"))
  {
    hide Valid, IsCeiling, Required, LowestSend;
  }

  // ---- AuthorityValues

  datatype Mode = Read | Reply | Custom | Nothing

  /** level is the one integer parameter of custom access. */
  datatype Native = NoNative | PowerLevel(level: int) | BadNative

  datatype Intent = Intent(mode: Mode, native: Native)

  datatype Refusal = Forbidden | Invalid

  predicate FactsFit(f: Facts) {
    f.creator == f.power.None?
  }

  function RequestedPower(f: Facts, target: User, intent: Intent, reconcile: bool): Result<int, Refusal>
    requires FactsFit(f)
  {
    if target in f.creators && !intent.mode.Reply? then Failure(Forbidden)
    else if intent.mode.Custom? && !(intent.native.PowerLevel? && Representable(intent.native.level)) then Failure(Invalid)
    else if !intent.mode.Custom? && !intent.native.NoNative? then Failure(Invalid)
    else if intent.mode.Nothing? then Failure(Invalid)
    else
      var requested := if intent.mode.Read? then f.read else if intent.mode.Reply? then f.reply else intent.native.level;
      if !Representable(requested) then Failure(Invalid)
      else
        var bounded := if reconcile && intent.mode.Custom? && !f.creator then Min(requested, f.power.value) else requested;
        if f.creator || bounded <= f.power.value then Success(bounded) else Failure(Forbidden)
  }

  function Maximum(f: Facts): int
    requires FactsFit(f)
  {
    if f.creator then MAX_WIRE else f.power.value
  }

  /** The modes View offers for the target. */
  function Modes(f: Facts, target: User): set<Mode>
    requires FactsFit(f)
  {
    if target in f.creators then {Reply}
    else if f.creator || f.reply <= Maximum(f) then {Read, Reply, Custom}
    else {Read, Custom}
  }

  ghost predicate Grantable(f: Facts, target: User, mode: Mode)
    requires FactsFit(f)
  {
    exists native :: RequestedPower(f, target, Intent(mode, native), false).Success?
  }

  lemma DescribedFacts(room: Room, user: User, f: Facts)
    requires Describes(room, user, f)
    ensures FactsFit(f) && Representable(f.read) && Representable(f.reply)
    ensures f.power.Some? ==> Representable(f.power.value) && f.read <= f.power.value
  {
    hide IsCeiling;
    var p := room.levels.value;
    assert Parses(p.fields, "events_default", false) && Parses(p.fields, "users_default", false);
    assert "m.room.message" in EntriesOf(p.events) ==> Parses(EntriesOf(p.events), "m.room.message", false);
    assert "m.reaction" in EntriesOf(p.events) ==> Parses(EntriesOf(p.events), "m.reaction", false);
  }

  // ---- Which level a mode grants

  ghost function Highest(room: Room, user: User): int
    requires room.levels.Some? && room.creation.Some?
  {
    if IsCreator(room.creation.value, user) then MAX_WIRE else UserLevel(room.levels.value, user)
  }

  /** At this level a member may do nothing that the levels guard. */
  ghost predicate Powerless(p: Levels, level: int) {
    forall action :: level < Required(p, action)
  }

  /** The greatest level that may do nothing and is not above the authorizer. */
  ghost predicate IsReadLevel(room: Room, user: User, level: int)
    requires room.levels.Some? && room.creation.Some?
  {
    && level <= Highest(room, user) && Powerless(room.levels.value, level)
    && forall other :: other <= Highest(room, user) && Powerless(room.levels.value, other) ==> other <= level
  }

  /** The least level that may send both kinds of message. */
  predicate IsReplyLevel(p: Levels, level: int) {
    && level >= Required(p, Send("m.room.message")) && level >= Required(p, Send("m.reaction"))
    && (level == Required(p, Send("m.room.message")) || level == Required(p, Send("m.reaction")))
  }

  lemma {:induction false} NewName(used: set<string>) returns (name: string)
    ensures forall other :: other in used ==> |other| < |name|
  {
    if used == {} {
      name := "";
    } else {
      var one :| one in used;
      name := NewName(used - {one});
      if |name| <= |one| {
        name := one + "x";
      }
    }
  }

  /** Whatever is below all requirements is below the ceiling and below the sending levels. */
  lemma PowerlessBelow(p: Levels, user: User, ceiling: int, level: int)
    requires Valid(p, user) && IsCeiling(p, ceiling) && Powerless(p, level)
    ensures level <= ceiling && level < LowestSend(p)
  {
    var name := NewName(EntriesOf(p.events).Keys);
    assert name !in EntriesOf(p.events);
    assert level < Required(p, ChangeState(name)) && level < Required(p, Send(name));
    assert level < Required(p, Send("m.room.message")) && level < Required(p, Send("m.reaction"));
    assert level < Required(p, Invite) && level < Required(p, Kick) && level < Required(p, Ban) && level < Required(p, Redact);
    var t :| Bounds(p, t) && ceiling + 1 == LevelOf(p, t);
    if t.Event? {
      assert Parses(EntriesOf(p.events), t.kind, false);
      assert level < Required(p, Send(t.kind));
    }
  }

  lemma {:induction false} ReadGrantGreatest(room: Room, user: User, f: Facts)
    requires Describes(room, user, f)
    ensures IsReadLevel(room, user, f.read)
  {
    hide Valid, IsCeiling, Required, LowestSend, UserLevel;
    var p := room.levels.value;
    var ceiling :| IsCeiling(p, ceiling)
      && f.read == Min(Min(if f.creator then MAX_WIRE else UserLevel(p, user), ceiling), LowestSend(p) - 1);
    forall action ensures f.read < Required(p, action) {
      BelowAll(p, user, ceiling, f.read, action);
    }
    forall other | other <= Highest(room, user) && Powerless(p, other) ensures other <= f.read {
      PowerlessBelow(p, user, ceiling, other);
    }
  }

  /** What each mode grants: a reader's level, a replier's, or the number asked for. */
  ghost predicate Grants(room: Room, user: User, target: User, intent: Intent, reconcile: bool, level: int)
    requires room.levels.Some? && room.creation.Some?
  {
    && (IsCreator(room.creation.value, target) ==> intent.mode.Reply?) && level <= Highest(room, user)
    && match intent.mode
       case Read => intent.native.NoNative? && IsReadLevel(room, user, level)
       case Reply => intent.native.NoNative? && IsReplyLevel(room.levels.value, level)
       case Custom =>
         && intent.native.PowerLevel? && Representable(intent.native.level)
         && level == (if reconcile then Min(intent.native.level, Highest(room, user)) else intent.native.level)
       case Nothing => false
  }

  /** A level is chosen exactly when the mode grants it; nothing else is. */
  lemma {:induction false} RequestedExactly(room: Room, user: User, f: Facts, target: User, intent: Intent, reconcile: bool, level: int)
    requires Describes(room, user, f)
    ensures FactsFit(f)
    ensures RequestedPower(f, target, intent, reconcile) == Success(level) <==> Grants(room, user, target, intent, reconcile, level)
  {
    DescribedFacts(room, user, f);
    ReadGrantGreatest(room, user, f);
    assert IsReplyLevel(room.levels.value, f.reply);
    assert f.power.Some? ==> f.power.value == Highest(room, user);
    assert target in f.creators <==> IsCreator(room.creation.value, target);
    hide Describes, Required, UserLevel, Powerless, IsCreator;
  }

  /** For a target that is no creator the view offers a mode exactly when it can be granted. */
  lemma ViewAgrees(room: Room, user: User, f: Facts, target: User, mode: Mode)
    requires Describes(room, user, f) && FactsFit(f) && target !in f.creators
    ensures mode in Modes(f, target) <==> Grantable(f, target, mode)
  {
    hide Describes;
    DescribedFacts(room, user, f);
    assert mode.Custom? ==> RequestedPower(f, target, Intent(Custom, PowerLevel(-MAX_WIRE)), false).Success?;
    assert mode.Read? ==> RequestedPower(f, target, Intent(Read, NoNative), false).Success?;
    assert mode.Reply? ==> (RequestedPower(f, target, Intent(Reply, NoNative), false).Success? <==> f.creator || f.reply <= f.power.value);
  }

  /** For a creator it always offers to reply, which can be granted exactly when the authorizer may reply itself. */
  lemma CreatorView(room: Room, user: User, f: Facts, target: User, mode: Mode)
    requires Describes(room, user, f) && FactsFit(f) && target in f.creators
    ensures mode in Modes(f, target) <==> mode.Reply?
    ensures Grantable(f, target, mode) <==> mode.Reply? && (f.creator || f.reply <= f.power.value)
  {
    hide Describes;
    DescribedFacts(room, user, f);
    assert RequestedPower(f, target, Intent(Reply, NoNative), false).Success? <==> f.creator || f.reply <= f.power.value;
  }
}

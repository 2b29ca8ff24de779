/**
 * RoomAccess.cs: SetRoomAccess and SetRoomPower. The room is read again at every step and may have changed in
 * between, so each read is a room of its own; Calls says which of the remote calls succeed, and the effects are
 * the changes sent to the homeserver.
 */
module RoomAccess {
  import opened Prelude
  import opened RoomPowers

  datatype Admission = Managed | Invitation(sender: User)

  /** The room at each of the six reads, in order. */
  datatype Reads = Reads(asked: Room, member: Room, facts: Room, current: Room, powers: Levels, confirmed: Room)

  /** stands says whether the invitation is still the admitted one, at the first and at the second look. */
  datatype Calls = Calls(account: bool, stands: bool, standsStill: bool, fetched: bool, put: bool, invited: bool, targetAccount: bool, joined: bool)

  datatype Effect = Put(levels: Levels) | Invited | Joined

  /** A level to be set, and how its holder may enter the room. */
  datatype Change = Change(authorizer: User, target: User, mode: Mode, level: int, admission: Option<Admission>)

  // ---- When SetRoomPower does what

  ghost predicate InRoom(room: Room, user: User) {
    user in room.members && room.members[user].Join?
  }

  predicate CanReply(p: Levels, level: int) {
    level >= Required(p, Send("m.room.message")) && level >= Required(p, Send("m.reaction"))
  }

  /** The authorizer may set this level in this room. */
  ghost predicate Permitted(room: Room, q: Change) {
    && Known(room, q.authorizer) && Representable(q.level)
    && (IsCreator(room.creation.value, q.authorizer) || q.level <= UserLevel(room.levels.value, q.authorizer))
    && (if IsCreator(room.creation.value, q.target) then q.mode.Reply? else q.mode.Reply? ==> CanReply(room.levels.value, q.level))
  }

  /** The invitation that admits the target was sent by the authorizer and is still the same. */
  predicate Admits(q: Change, stands: bool) {
    q.admission.Some? && q.admission.value.Invitation? ==> q.admission.value.sender == q.authorizer && stands
  }

  ghost predicate Idle(q: Change, r: Reads) {
    Permitted(r.facts, q) && Seen(r.current, q.target) && q.admission.None? && !InRoom(r.current, q.target)
  }

  ghost predicate Proceeds(q: Change, r: Reads, c: Calls) {
    && Permitted(r.facts, q) && Seen(r.current, q.target) && c.account
    && (InRoom(r.current, q.target) || (q.admission.Some? && Admits(q, c.stands)))
  }

  ghost predicate Differs(room: Room, q: Change)
    requires Seen(room, q.target)
  {
    !IsCreator(room.creation.value, q.target) && UserLevel(room.levels.value, q.target) != q.level
  }

  ghost predicate Sends(q: Change, r: Reads, c: Calls) {
    Proceeds(q, r, c) && Differs(r.current, q) && c.fetched && (r.powers.users.Entries? || r.powers.users.Missing?)
  }

  ghost predicate Written(q: Change, r: Reads, c: Calls) {
    Proceeds(q, r, c) && (Differs(r.current, q) ==> Sends(q, r, c) && c.put)
  }

  ghost predicate Invites(q: Change, r: Reads, c: Calls) {
    Written(q, r, c) && !InRoom(r.current, q.target) && q.admission == Some(Managed)
  }

  ghost predicate Joins(q: Change, r: Reads, c: Calls) {
    && Written(q, r, c) && !InRoom(r.current, q.target)
    && (if q.admission == Some(Managed) then c.invited else Admits(q, c.standsStill)) && c.targetAccount
  }

  ghost predicate Confirms(room: Room, q: Change) {
    && Seen(room, q.target) && InRoom(room, q.target)
    && if IsCreator(room.creation.value, q.target) then q.mode.Reply?
       else
         && UserLevel(room.levels.value, q.target) == q.level
         && (q.mode.Reply? ==> CanReply(room.levels.value, q.level)) && (q.mode.Read? ==> q.level <= ReadLimit(room.levels.value))
  }

  function WithLevel(p: Levels, target: User, level: int): Levels {
    Levels(p.fields, Entries(EntriesOf(p.users)[target := Number(level)]), p.events)
  }

  ghost function Effects(q: Change, r: Reads, c: Calls): seq<Effect> {
    (if Sends(q, r, c) then [Put(WithLevel(r.powers, q.target, q.level))] else [])
    + (if Invites(q, r, c) then [Effect.Invited] else [])
    + (if Joins(q, r, c) then [Joined] else [])
  }

  ghost function Outcome(q: Change, r: Reads, c: Calls): Option<Observed> {
    if Idle(q, r) then Some(ObservedOf(r.current, q.target))
    else if Written(q, r, c) && (InRoom(r.current, q.target) || (Joins(q, r, c) && c.joined)) && Confirms(r.confirmed, q)
    then Some(ObservedOf(r.confirmed, q.target))
    else None
  }

  method SetRoomPower(q: Change, r: Reads, c: Calls) returns (result: Option<Observed>, effects: seq<Effect>)
    ensures effects == Effects(q, r, c) && result == Outcome(q, r, c)
  {
    hide Describes, Observes, Known, Seen, IsCeiling, Required, UserLevel, IsCreator, CanReply, WithLevel;
    effects, result := [], None;
    var facts := NativeRoom(r.facts, q.authorizer);
    if facts.None? {
      assert !Permitted(r.facts, q);
      return;
    }
    var f := facts.value;
    FactsPermit(r.facts, q);
    if q.level > MAX_WIRE || q.level < -MAX_WIRE || (!f.creator && q.level > f.power.value) {
      return;
    }
    if q.target in f.creators && !q.mode.Reply? {
      return;
    }
    if q.target !in f.creators && q.mode.Reply? && q.level < f.reply {
      return;
    }
    var current := MembershipState(r.current, q.target);
    if current.None? {
      return;
    }
    ObservedMeans(r.current, q);
    var joined := current.value.membership.Join?;
    if q.admission.None? && !joined {
      return current, effects;
    }
    var verified := VerifyInvitation(q, joined, c.stands);
    if !c.account || !verified {
      return;
    }
    if !current.value.creator && current.value.power != Some(q.level) {
      if !c.fetched {
        return;
      }
      var put := ChangeLevel(q.target, q.level, r.powers);
      if put.None? {
        return;
      }
      effects := [Put(put.value)];
      if !c.put {
        return;
      }
    }
    if !joined {
      var admitted, sent := Admit(q, c);
      effects := effects + sent;
      if !admitted {
        return;
      }
    }
    result := Confirm(q, r.confirmed);
  }

  lemma FactsPermit(room: Room, q: Change)
    requires Known(room, q.authorizer)
    ensures var f := FactsOf(room, q.authorizer);
            && FactsFit(f)
            && (Permitted(room, q) <==>
                && Representable(q.level) && (f.creator || q.level <= f.power.value)
                && (if q.target in f.creators then q.mode.Reply? else q.mode.Reply? ==> q.level >= f.reply))
  {
    hide Required, Valid, IsCeiling, UserLevel;
  }

  lemma ObservedMeans(room: Room, q: Change)
    requires Seen(room, q.target)
    ensures var o := ObservedOf(room, q.target);
            && (o.membership.Join? <==> InRoom(room, q.target)) && (o.creator <==> o.power.None?)
            && (Differs(room, q) <==> !o.creator && o.power != Some(q.level))
            && (Confirms(room, q) <==>
                && o.membership.Join?
                && if o.creator then q.mode.Reply?
                   else o.power == Some(q.level) && (q.mode.Reply? ==> q.level >= o.reply) && (q.mode.Read? ==> q.level <= o.read))
  {
    hide Required, Valid, IsCeiling, UserLevel, ReadLimit;
  }

  method VerifyInvitation(q: Change, joined: bool, stands: bool) returns (ok: bool)
    ensures ok <==> joined || Admits(q, stands)
  {
    if q.admission.None? || !q.admission.value.Invitation? || joined {
      return true;
    }
    return q.admission.value.sender == q.authorizer && stands;
  }

  method ChangeLevel(target: User, level: int, powers: Levels) returns (put: Option<Levels>)
    ensures put == if powers.users.Entries? || powers.users.Missing? then Some(WithLevel(powers, target, level)) else None
  {
    if !powers.users.Entries? && !powers.users.Missing? {
      return None;
    }
    return Some(Levels(powers.fields, Entries(EntriesOf(powers.users)[target := Number(level)]), powers.events));
  }

  /** The invitation of a managed member, or the second check of the invitation that admits it, and the join. */
  method Admit(q: Change, c: Calls) returns (ok: bool, effects: seq<Effect>)
    ensures var entered := (if q.admission == Some(Managed) then c.invited else Admits(q, c.standsStill)) && c.targetAccount;
            && effects == (if q.admission == Some(Managed) then [Effect.Invited] else []) + (if entered then [Joined] else [])
            && (ok <==> entered && c.joined)
  {
    effects, ok := [], false;
    if q.admission.Some? && q.admission.value.Managed? {
      effects := [Effect.Invited];
      if !c.invited {
        return;
      }
    } else {
      var verified := VerifyInvitation(q, false, c.standsStill);
      if !verified {
        return;
      }
    }
    if !c.targetAccount {
      return;
    }
    effects := effects + [Joined];
    ok := c.joined;
  }

  method Confirm(q: Change, room: Room) returns (result: Option<Observed>)
    ensures result == if Confirms(room, q) then Some(ObservedOf(room, q.target)) else None
  {
    hide Observes, Seen;
    var checked := MembershipState(room, q.target);
    if checked.None? {
      assert !Confirms(room, q);
      return None;
    }
    ObservedMeans(room, q);
    hide Confirms;
    var o := checked.value;
    if !o.membership.Join? {
      return None;
    }
    if o.creator {
      return if q.mode.Reply? then checked else None;
    }
    if o.power != Some(q.level) || (q.mode.Reply? && q.level < o.reply) || (q.mode.Read? && q.level > o.read) {
      return None;
    }
    return checked;
  }

  // ---- SetRoomAccess chooses the level from the first two reads

  datatype Grant = Grant(authorizer: User, target: User, intent: Intent, admission: Option<Admission>)

  function GrantLevel(f: Facts, g: Grant, member: Observed): Result<int, Refusal>
    requires FactsFit(f) && (member.creator <==> member.power.None?)
  {
    var requested := RequestedPower(f, g.target, g.intent, true);
    if requested.Failure? || g.admission.Some? || member.creator then requested
    else Success(Min(requested.value, member.power.value))
  }

  ghost predicate Grants(g: Grant, r: Reads) {
    && Known(r.asked, g.authorizer) && Seen(r.member, g.target)
    && RequestedPower(FactsOf(r.asked, g.authorizer), g.target, g.intent, true).Success?
  }

  /** The change a grant amounts to. */
  ghost function ChangeOf(g: Grant, r: Reads): Change
    requires Grants(g, r)
  {
    var level := GrantLevel(FactsOf(r.asked, g.authorizer), g, ObservedOf(r.member, g.target));
    Change(g.authorizer, g.target, g.intent.mode, level.value, g.admission)
  }

  ghost function GrantEffects(g: Grant, r: Reads, c: Calls): seq<Effect> {
    if Grants(g, r) then Effects(ChangeOf(g, r), r, c) else []
  }

  ghost function GrantOutcome(g: Grant, r: Reads, c: Calls): Option<Observed> {
    if Grants(g, r) then Outcome(ChangeOf(g, r), r, c) else None
  }

  method SetRoomAccess(g: Grant, r: Reads, c: Calls) returns (result: Option<Observed>, effects: seq<Effect>)
    ensures effects == GrantEffects(g, r, c) && result == GrantOutcome(g, r, c)
  {
    hide Describes, Observes, Known, Seen, Effects, Outcome;
    effects, result := [], None;
    var facts := NativeRoom(r.asked, g.authorizer);
    if facts.None? {
      return;
    }
    FactsFitting(r.asked, g.authorizer);
    if RequestedPower(facts.value, g.target, g.intent, true).Failure? {
      return;
    }
    var member := MembershipState(r.member, g.target);
    if member.None? {
      return;
    }
    MemberFitting(r.member, g.target);
    var level := GrantLevel(facts.value, g, member.value);
    result, effects := SetRoomPower(Change(g.authorizer, g.target, g.intent.mode, level.value, g.admission), r, c);
  }

  lemma FactsFitting(room: Room, user: User)
    requires Known(room, user)
    ensures FactsFit(FactsOf(room, user))
  {
  }

  lemma MemberFitting(room: Room, target: User)
    requires Seen(room, target)
    ensures ObservedOf(room, target).creator <==> ObservedOf(room, target).power.None?
  {
  }

  // ---- What a grant may do

  /** Nobody else's level and no required level changes. */
  lemma OnlyThisLevel(p: Levels, target: User, level: int)
    ensures var put := WithLevel(p, target, level);
            && UserLevel(put, target) == level && (forall user :: user != target ==> UserLevel(put, user) == UserLevel(p, user))
            && (forall action :: Required(put, action) == Required(p, action))
  {
  }

  /**
   * A level that is sent is at most the authorizer's at both readings of it and, without an admission, at most the
   * member's own as first read. It goes first, and the target is no creator.
   */
  lemma {:induction false} SentWithin(g: Grant, r: Reads, c: Calls, i: nat)
    requires i < |GrantEffects(g, r, c)| && GrantEffects(g, r, c)[i].Put?
    ensures i == 0 && Grants(g, r) && Known(r.facts, g.authorizer) && Seen(r.current, g.target)
    ensures var level := ChangeOf(g, r).level;
            && GrantEffects(g, r, c)[0] == Put(WithLevel(r.powers, g.target, level))
            && level <= Highest(r.asked, g.authorizer) && level <= Highest(r.facts, g.authorizer)
            && (g.admission.None? ==> level <= Highest(r.member, g.target) && InRoom(r.current, g.target))
            && !IsCreator(r.current.creation.value, g.target)
  {
    hide Required, Valid, IsCeiling, UserLevel, WithLevel, ReadLimit, CanReply;
    assert Grants(g, r);
    RequestWithin(g, r);
  }

  /**
   * The level of a grant is what its mode grants in the room as first read; without an admission a member who is
   * no creator never gets more than it has.
   */
  lemma {:induction false} GrantExactly(g: Grant, r: Reads, level: int)
    requires Known(r.asked, g.authorizer) && Seen(r.member, g.target)
    ensures Grants(g, r) && ChangeOf(g, r).level == level <==>
            exists requested :: RoomPowers.Grants(r.asked, g.authorizer, g.target, g.intent, true, requested)
              && level == if g.admission.Some? || IsCreator(r.member.creation.value, g.target) then requested
                          else Min(requested, UserLevel(r.member.levels.value, g.target))
  {
    hide RoomPowers.Grants, Required, Valid, IsCeiling, UserLevel, ReadLimit;
    var f := FactsOf(r.asked, g.authorizer);
    forall requested ensures RequestedPower(f, g.target, g.intent, true) == Success(requested) <==>
                             RoomPowers.Grants(r.asked, g.authorizer, g.target, g.intent, true, requested) {
      RequestedExactly(r.asked, g.authorizer, f, g.target, g.intent, true, requested);
    }
    FactsFitting(r.asked, g.authorizer);
    MemberFitting(r.member, g.target);
    hide RequestedPower, Known;
  }

  lemma RequestWithin(g: Grant, r: Reads)
    requires Grants(g, r)
    ensures Representable(ChangeOf(g, r).level) || (g.admission.None? && !IsCreator(r.member.creation.value, g.target))
    ensures ChangeOf(g, r).level <= Highest(r.asked, g.authorizer)
    ensures g.admission.None? && !IsCreator(r.member.creation.value, g.target) ==> ChangeOf(g, r).level <= UserLevel(r.member.levels.value, g.target)
  {
    hide Required, Valid, IsCeiling, UserLevel, ReadLimit;
  }

  /** The target joins last, and by invitation only when that was verified before the level and again before joining. */
  lemma {:induction false} JoinVerified(g: Grant, r: Reads, c: Calls, i: nat)
    requires i < |GrantEffects(g, r, c)| && GrantEffects(g, r, c)[i].Joined?
    ensures i == |GrantEffects(g, r, c)| - 1 && g.admission.Some?
    ensures g.admission.value.Invitation? ==> g.admission.value.sender == g.authorizer && c.stands && c.standsStill
    ensures g.admission.value.Managed? ==> c.invited && Effect.Invited in GrantEffects(g, r, c)
    ensures Grants(g, r) && Permitted(r.facts, ChangeOf(g, r)) && (Differs(r.current, ChangeOf(g, r)) ==> c.put)
  {
    hide Permitted, Seen, Known, InRoom, WithLevel, Differs;
    assert Grants(g, r);
    assert Joins(ChangeOf(g, r), r, c);
    assert Written(ChangeOf(g, r), r, c) && Proceeds(ChangeOf(g, r), r, c);
  }

  /**
   * On success the target is out of the room and nothing was sent, or the last reading confirms a joined member: a
   * reader below everything guarded, or one who may send both kinds of message.
   */
  lemma {:induction false} SuccessMeans(g: Grant, r: Reads, c: Calls)
    requires GrantOutcome(g, r, c).Some?
    ensures var o := GrantOutcome(g, r, c).value;
            if !o.membership.Join? then g.admission.None? && GrantEffects(g, r, c) == []
            else
              && InRoom(r.confirmed, g.target) && r.confirmed.levels.Some?
              && (g.intent.mode.Read? ==> forall action :: UserLevel(r.confirmed.levels.value, g.target) < Required(r.confirmed.levels.value, action))
              && (g.intent.mode.Reply? && !o.creator ==>
                    CanReply(r.confirmed.levels.value, UserLevel(r.confirmed.levels.value, g.target)))
  {
    hide Required, Valid, IsCeiling, UserLevel, WithLevel, CanReply;
    var q := ChangeOf(g, r);
    if !Idle(q, r) {
      assert Confirms(r.confirmed, q);
      var p := r.confirmed.levels.value;
      if q.mode.Read? {
        forall action ensures UserLevel(p, g.target) < Required(p, action) {
          BelowAll(p, g.target, CeilingOf(p), q.level, action);
        }
      }
    }
  }

  // ---- When a grant without admission raises a level

  /** The level overwritten is the one fetched just before. */
  ghost predicate Raises(effects: seq<Effect>, fetched: Levels, target: User) {
    exists i :: 0 <= i < |effects| && effects[i].Put? && UserLevel(effects[i].levels, target) > UserLevel(fetched, target)
  }

  /** A call without admission gets as far as its write. */
  ghost predicate Reaches(g: Grant, r: Reads, c: Calls) {
    && Grants(g, r) && Permitted(r.facts, ChangeOf(g, r))
    && Seen(r.current, g.target) && InRoom(r.current, g.target) && Differs(r.current, ChangeOf(g, r))
    && c.account && c.fetched && (r.powers.users.Entries? || r.powers.users.Missing?)
  }

  /**
   * The level chosen from the first readings is compared neither with the current one nor with the one fetched and
   * overwritten, so the member is raised exactly when the fetched level is below it.
   */
  lemma {:induction false} RaisesExactly(g: Grant, r: Reads, c: Calls)
    requires g.admission.None?
    ensures Raises(GrantEffects(g, r, c), r.powers, g.target) <==> Reaches(g, r, c) && UserLevel(r.powers, g.target) < ChangeOf(g, r).level
  {
    hide Permitted, Seen, Known, InRoom, Differs, UserLevel, WithLevel;
    var effects := GrantEffects(g, r, c);
    if Grants(g, r) {
      var q := ChangeOf(g, r);
      OnlyThisLevel(r.powers, g.target, q.level);
      if Reaches(g, r, c) {
        assert Sends(q, r, c);
        assert effects[0] == Put(WithLevel(r.powers, g.target, q.level));
      }
    }
  }

  /** In particular a level that is not below its first reading when it is fetched is never raised. */
  lemma {:induction false} OnlyLowers(g: Grant, r: Reads, c: Calls)
    requires g.admission.None? && r.member.levels.Some? && r.member.creation == r.current.creation
    requires UserLevel(r.powers, g.target) >= UserLevel(r.member.levels.value, g.target)
    ensures !Raises(GrantEffects(g, r, c), r.powers, g.target)
  {
    hide Permitted, Known, InRoom, UserLevel, Valid;
    RaisesExactly(g, r, c);
    if Reaches(g, r, c) {
      RequestWithin(g, r);
    }
  }

  /** The room lets a write through. */
  ghost predicate Ready(authorizer: User, target: User, r: Reads, c: Calls) {
    && Known(r.asked, authorizer) && Seen(r.member, target) && Known(r.facts, authorizer)
    && Seen(r.current, target) && InRoom(r.current, target) && !IsCreator(r.current.creation.value, target)
    && c.account && c.fetched && (r.powers.users.Entries? || r.powers.users.Missing?)
  }

  ghost function Reach(authorizer: User, target: User, r: Reads, c: Calls): int
    requires Ready(authorizer, target, r, c)
  {
    Min(Min(Highest(r.asked, authorizer), UserLevel(r.member.levels.value, target)), Highest(r.facts, authorizer))
  }

  /**
   * Some grant without admission raises the member exactly when the level it reaches, the least of the member's
   * first reading and the two of the authorizer, is above the fetched one and the current reading does not hide it.
   * A room's creation never changes.
   */
  lemma {:induction false} RaisableExactly(authorizer: User, target: User, r: Reads, c: Calls)
    requires r.asked.creation == r.member.creation == r.facts.creation == r.current.creation
    ensures (exists intent: Intent :: Raises(GrantEffects(Grant(authorizer, target, intent, None), r, c), r.powers, target))
            <==> Ready(authorizer, target, r, c)
                 && var reach, fetched := Reach(authorizer, target, r, c), UserLevel(r.powers, target);
                    fetched < reach && (reach != UserLevel(r.current.levels.value, target) || Max(fetched + 1, -MAX_WIRE) < reach)
  {
    hide Valid, UserLevel, Required, IsCeiling, ReadLimit, CanReply, Raises, GrantEffects;
    if intent: Intent :| Raises(GrantEffects(Grant(authorizer, target, intent, None), r, c), r.powers, target) {
      var g := Grant(authorizer, target, intent, None);
      RaisesExactly(g, r, c);
      RequestWithin(g, r);
      assert Ready(authorizer, target, r, c);
    }
    if Ready(authorizer, target, r, c) {
      var reach, fetched := Reach(authorizer, target, r, c), UserLevel(r.powers, target);
      if fetched < reach && (reach != UserLevel(r.current.levels.value, target) || Max(fetched + 1, -MAX_WIRE) < reach) {
        LevelsRepresentable(authorizer, target, r);
        CustomRaises(authorizer, target, r, c, if reach != UserLevel(r.current.levels.value, target) then reach else reach - 1);
      }
    }
  }

  lemma LevelsRepresentable(authorizer: User, target: User, r: Reads)
    requires Known(r.asked, authorizer) && Seen(r.member, target) && Known(r.facts, authorizer)
    ensures Representable(Highest(r.asked, authorizer)) && Representable(Highest(r.facts, authorizer))
    ensures Representable(UserLevel(r.member.levels.value, target))
  {
  }

  lemma CustomRaises(authorizer: User, target: User, r: Reads, c: Calls, level: int)
    requires r.asked.creation == r.member.creation == r.facts.creation == r.current.creation
    requires Ready(authorizer, target, r, c) && UserLevel(r.powers, target) < level <= Reach(authorizer, target, r, c)
    requires Representable(level) && level != UserLevel(r.current.levels.value, target)
    ensures exists intent: Intent :: Raises(GrantEffects(Grant(authorizer, target, intent, None), r, c), r.powers, target)
  {
    hide Valid, UserLevel, Required, IsCeiling, ReadLimit, CanReply, Raises, GrantEffects;
    var g := Grant(authorizer, target, Intent(Custom, PowerLevel(level)), None);
    assert Grants(g, r) && ChangeOf(g, r).level == level;
    RaisesExactly(g, r, c);
    assert Raises(GrantEffects(g, r, c), r.powers, target);
  }

  /** A level demoted to 0 between the last reading and the fetch is set back to 40, and the call confirms it. */
  lemma {:induction false} RaisesBack()
    ensures exists g: Grant, r: Reads, c: Calls ::
              && g.admission.None? && Raises(GrantEffects(g, r, c), r.powers, g.target)
              && UserLevel(r.powers, g.target) == 0 && GrantOutcome(g, r, c).Some? && GrantOutcome(g, r, c).value.power == Some(40)
  {
    var before, after := Sample(50), Sample(40);
    SampleSeen(50);
    SampleSeen(40);
    var r := Reads(before, before, before, before, Sample(0).levels.value, after);
    var c := Calls(true, false, false, true, true, false, false, false);
    var g := Grant("@a", "@t", Intent(Custom, PowerLevel(40)), None);
    RaisesExactly(g, r, c);
    SampleCall(g, r, c);
  }

  function Sample(level: int): Room {
    Room(Some(Creation(Some("@a"), false, [])), Some(Levels(map[], Entries(map["@a" := Number(100), "@t" := Number(level)]), Missing)),
         map["@a" := Join, "@t" := Join])
  }

  lemma SampleSeen(level: int)
    requires Representable(level)
    ensures Known(Sample(level), "@a") && Seen(Sample(level), "@t") && InRoom(Sample(level), "@t")
    ensures UserLevel(Sample(level).levels.value, "@a") == 100 && UserLevel(Sample(level).levels.value, "@t") == level
  {
  }

  lemma SampleCall(g: Grant, r: Reads, c: Calls)
    requires g == Grant("@a", "@t", Intent(Custom, PowerLevel(40)), None)
    requires r == Reads(Sample(50), Sample(50), Sample(50), Sample(50), Sample(0).levels.value, Sample(40))
    requires c == Calls(true, false, false, true, true, false, false, false)
    ensures Reaches(g, r, c) && ChangeOf(g, r).level == 40
    ensures GrantOutcome(g, r, c).Some? && GrantOutcome(g, r, c).value.power == Some(40)
  {
    SampleSeen(50);
    SampleSeen(40);
    hide Known, Seen, UserLevel, Required, ReadLimit;
  }
}

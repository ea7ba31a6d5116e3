/** Members of a guild (src/stores/objects/GuildMember.ts) and the two
    collaborators they touch: the guild's role and member tables, and the
    domain's presence store. */
module GuildMembers {
  import opened JsValues

  datatype Role = Role(id: string, name: string, color: int)

  datatype User = User(id: string, username: string)

  /** A presence update carried by a member payload; its contents are not inspected here. */
  datatype Presence = Presence(userId: string, status: string)

  /** A member payload as the gateway or the REST API delivers it. Keys the
      API types declare optional are `Field`s (they may be absent); a `null`
      value is `None`. `roles` holds role ids. */
  datatype MemberPayload = MemberPayload(
    user: Field<User>,
    nick: Field<Option<string>>,
    avatar: Field<Option<string>>,
    roles: seq<string>,
    joinedAt: string,
    premiumSince: Field<Option<string>>,
    deaf: bool,
    mute: bool,
    flags: int,
    pending: Field<bool>,
    communicationDisabledUntil: Field<Option<string>>,
    presence: Field<Presence>)

  /** An element of a member's `roles` array: the constructor stores resolved
      `Role` objects, `update` stores whatever the payload carries (role ids). */
  datatype RoleEntry = Resolved(role: Role) | RawId(id: string)

  /** The observable fields of a `GuildMember`, as one value. */
  datatype MemberState = MemberState(
    user: Field<User>,
    nick: Field<Option<string>>,
    avatar: Field<Option<string>>,
    roles: seq<RoleEntry>,
    joinedAt: string,
    premiumSince: Field<Option<string>>,
    deaf: bool,
    mute: bool,
    flags: int,
    pending: Field<bool>,
    communicationDisabledUntil: Field<Option<string>>)

  /** Looks every id up in the guild's role table and drops the ids it does not hold: the roles of the known ids, in order. */
  function ResolveRoles(ids: seq<string>, table: map<string, Role>): (r: seq<Role>)
    ensures |r| <= |ids|
    ensures forall x :: x in r ==> x in table.Values
  {
    if |ids| == 0 then []
    else (if ids[0] in table then [table[ids[0]]] else []) + ResolveRoles(ids[1..], table)
  }

  /** Every role in the result comes from an id of the input that the table
      knows, and every such id contributes its role. */
  lemma {:induction false} ResolveRolesMembership(ids: seq<string>, table: map<string, Role>, x: Role)
    ensures x in ResolveRoles(ids, table) <==> exists i :: 0 <= i < |ids| && ids[i] in table && table[ids[i]] == x
  {
    if ids != [] {
      ResolveRolesMembership(ids[1..], table, x);
      if exists i :: 0 <= i < |ids| && ids[i] in table && table[ids[i]] == x {
        var i :| 0 <= i < |ids| && ids[i] in table && table[ids[i]] == x;
        if i > 0 {
          assert ids[1..][i - 1] == ids[i];
        }
      }
      if exists i :: 0 <= i < |ids| - 1 && ids[1..][i] in table && table[ids[1..][i]] == x {
        var i :| 0 <= i < |ids| - 1 && ids[1..][i] in table && table[ids[1..][i]] == x;
        assert ids[i + 1] == ids[1..][i];
      }
    }
  }

  /** Resolution keeps input order: resolving a concatenation resolves each part. */
  lemma {:induction false} ResolveRolesConcat(a: seq<string>, b: seq<string>, table: map<string, Role>)
    ensures ResolveRoles(a + b, table) == ResolveRoles(a, table) + ResolveRoles(b, table)
  {
    if a != [] {
      assert (a + b)[1..] == a[1..] + b;
      ResolveRolesConcat(a[1..], b, table);
    } else {
      assert a + b == b;
    }
  }

  /** No id is dropped exactly when every id resolves. */
  lemma {:induction false} ResolveRolesKeepsAll(ids: seq<string>, table: map<string, Role>)
    ensures |ResolveRoles(ids, table)| == |ids| <==> forall i :: 0 <= i < |ids| ==> ids[i] in table
  {
    if ids != [] {
      ResolveRolesKeepsAll(ids[1..], table);
      if forall i :: 0 <= i < |ids| - 1 ==> ids[1..][i] in table {
        if ids[0] in table {
          forall i | 0 <= i < |ids| ensures ids[i] in table {
            if i > 0 { assert ids[i] == ids[1..][i - 1]; }
          }
        }
      } else {
        var i :| 0 <= i < |ids| - 1 && ids[1..][i] !in table;
        assert ids[i + 1] !in table;
      }
    }
  }

  /** When every id resolves, the roles line up with the ids one for one. */
  lemma {:induction false} ResolveRolesPointwise(ids: seq<string>, table: map<string, Role>)
    requires forall i :: 0 <= i < |ids| ==> ids[i] in table
    ensures |ResolveRoles(ids, table)| == |ids|
    ensures forall i :: 0 <= i < |ids| ==> ResolveRoles(ids, table)[i] == table[ids[i]]
  {
    if ids != [] {
      assert forall i :: 0 <= i < |ids| - 1 ==> ids[1..][i] == ids[i + 1];
      ResolveRolesPointwise(ids[1..], table);
    }
  }

  function AsResolved(roles: seq<Role>): (r: seq<RoleEntry>)
    ensures |r| == |roles|
    ensures forall i :: 0 <= i < |roles| ==> r[i] == Resolved(roles[i])
  {
    seq(|roles|, i requires 0 <= i < |roles| => Resolved(roles[i]))
  }

  function AsRawIds(ids: seq<string>): (r: seq<RoleEntry>)
    ensures |r| == |ids|
    ensures forall i :: 0 <= i < |ids| ==> r[i] == RawId(ids[i])
  {
    seq(|ids|, i requires 0 <= i < |ids| => RawId(ids[i]))
  }

  /** The fields the constructor sets: every payload field copied as it is,
      except that role ids are resolved through the guild's role table. */
  function Initial(data: MemberPayload, roleTable: map<string, Role>): MemberState {
    MemberState(
      data.user, data.nick, data.avatar,
      AsResolved(ResolveRoles(data.roles, roleTable)),
      data.joinedAt, data.premiumSince, data.deaf, data.mute, data.flags,
      data.pending, data.communicationDisabledUntil)
  }

  /** Copying the payload onto the member, restricted to the modelled fields:
      a key the payload carries overwrites the field, an absent one leaves it. */
  function Assign(s: MemberState, data: MemberPayload): MemberState {
    MemberState(
      if data.user.Present? then data.user else s.user,
      if data.nick.Present? then data.nick else s.nick,
      if data.avatar.Present? then data.avatar else s.avatar,
      AsRawIds(data.roles),
      data.joinedAt,
      if data.premiumSince.Present? then data.premiumSince else s.premiumSince,
      data.deaf, data.mute, data.flags,
      if data.pending.Present? then data.pending else s.pending,
      if data.communicationDisabledUntil.Present? then data.communicationDisabledUntil else s.communicationDisabledUntil)
  }

  /** The presences `presences.add` receives for one payload: one exactly when the key is there. */
  function PresenceOf(data: MemberPayload): (r: seq<Presence>)
    ensures |r| <= 1
    ensures r != [] <==> data.presence.Present?
    ensures data.presence.Present? ==> r == [data.presence.value]
  {
    if data.presence.Present? then [data.presence.value] else []
  }

  /** What an update leaves of the constructor's work: every field the payload
      carries agrees with what constructing from it would give, except `roles`,
      which holds the raw ids and is not resolved again. */
  lemma AssignAgreesWithInitial(s: MemberState, data: MemberPayload, roleTable: map<string, Role>)
    ensures var a, i := Assign(s, data), Initial(data, roleTable);
      && (data.user.Present? ==> a.user == i.user)
      && (data.nick.Present? ==> a.nick == i.nick)
      && (data.avatar.Present? ==> a.avatar == i.avatar)
      && a.joinedAt == i.joinedAt && a.deaf == i.deaf && a.mute == i.mute && a.flags == i.flags
      && (data.premiumSince.Present? ==> a.premiumSince == i.premiumSince)
      && (data.pending.Present? ==> a.pending == i.pending)
      && (data.communicationDisabledUntil.Present? ==> a.communicationDisabledUntil == i.communicationDisabledUntil)
      && a.roles == AsRawIds(data.roles)
  {
  }

  /** Absent keys leave their fields as they were. */
  lemma AssignKeepsAbsent(s: MemberState, data: MemberPayload)
    ensures var a := Assign(s, data);
      && (data.user.Absent? ==> a.user == s.user)
      && (data.nick.Absent? ==> a.nick == s.nick)
      && (data.avatar.Absent? ==> a.avatar == s.avatar)
      && (data.premiumSince.Absent? ==> a.premiumSince == s.premiumSince)
      && (data.pending.Absent? ==> a.pending == s.pending)
      && (data.communicationDisabledUntil.Absent? ==> a.communicationDisabledUntil == s.communicationDisabledUntil)
  {
  }

  /** Applying the same payload twice is the same as applying it once. */
  lemma AssignIdempotent(s: MemberState, data: MemberPayload)
    ensures Assign(Assign(s, data), data) == Assign(s, data)
  {
  }

  /** The domain's presence store, reduced to the sequence of presences it was given. */
  class Domain {
    var presences: seq<Presence>

    constructor ()
      ensures presences == []
    {
      presences := [];
    }

    /** `presences.add`: records one presence. */
    method Add(p: Presence)
      modifies this`presences
      ensures presences == old(presences) + [p]
    {
      presences := presences + [p];
    }
  }

  /** The parts of a guild the member list reads: its role table and its member
      table, both keyed by id. */
  class Guild {
    var roles: map<string, Role>
    var members: map<string, GuildMember>

    constructor (roles: map<string, Role>, members: map<string, GuildMember>)
      ensures this.roles == roles && this.members == members
    {
      this.roles := roles;
      this.members := members;
    }
  }

  class GuildMember {
    const domain: Domain
    const guild: Guild
    /** The payload the member was constructed from. */
    ghost const origin: MemberPayload

    var user: Field<User>
    var nick: Field<Option<string>>
    var avatar: Field<Option<string>>
    var roles: seq<RoleEntry>
    var joinedAt: string
    var premiumSince: Field<Option<string>>
    var deaf: bool
    var mute: bool
    var flags: int
    var pending: Field<bool>
    var communicationDisabledUntil: Field<Option<string>>

    function State(): MemberState
      reads this
    {
      MemberState(user, nick, avatar, roles, joinedAt, premiumSince, deaf, mute, flags,
                  pending, communicationDisabledUntil)
    }

    /** Copies the payload, resolves its role ids against the guild's roles,
        and hands a carried presence to the presence store. The member is not
        added to the guild's member table. */
    constructor (domain: Domain, guild: Guild, data: MemberPayload)
      modifies domain`presences
      ensures this.domain == domain && this.guild == guild && origin == data
      ensures State() == Initial(data, guild.roles)
      ensures domain.presences == old(domain.presences) + PresenceOf(data)
    {
      this.domain := domain;
      this.guild := guild;
      origin := data;
      user := data.user;
      nick := data.nick;
      avatar := data.avatar;
      roles := AsResolved(ResolveRoles(data.roles, guild.roles));
      joinedAt := data.joinedAt;
      premiumSince := data.premiumSince;
      deaf := data.deaf;
      mute := data.mute;
      flags := data.flags;
      pending := data.pending;
      communicationDisabledUntil := data.communicationDisabledUntil;
      new;
      if data.presence.Present? {
        domain.Add(data.presence.value);
      }
    }

    /** Overwrites the fields the payload carries and forwards a carried presence. */
    method Update(data: MemberPayload)
      modifies this, domain`presences
      ensures State() == Assign(old(State()), data)
      ensures domain.presences == old(domain.presences) + PresenceOf(data)
    {
      Overwrite(Assign(State(), data));
      if data.presence.Present? {
        domain.Add(data.presence.value);
      }
    }

    /** Sets every modelled field at once. */
    method Overwrite(s: MemberState)
      modifies this
      ensures State() == s
    {
      user, nick, avatar, roles := s.user, s.nick, s.avatar, s.roles;
      joinedAt, premiumSince, deaf, mute := s.joinedAt, s.premiumSince, s.deaf, s.mute;
      flags, pending, communicationDisabledUntil := s.flags, s.pending, s.communicationDisabledUntil;
    }
  }
}

/** The guild member list store (src/stores/GuildMemberListStore.ts): it keeps
    the header of the last member-list update the gateway sent and rebuilds the
    render list `list` from the update's operations. Only SYNC does anything;
    a member already in the guild's member table abandons the whole batch, and
    a member before any group marker makes the walk throw. */
module MemberListStore {
  import opened JsValues
  import opened Text
  import opened GuildMembers
  import opened MemberListPipeline

  /** A group descriptor of the update header: a role id (or "online"/"offline") and its count. */
  datatype Group = Group(id: string, count: int)

  /** An element of a SYNC's `items`: a group marker, or a member payload
      together with the `index` it carries. */
  datatype Item = GroupMarker(groupId: string) | MemberItem(member: MemberPayload, index: int)

  datatype OpCode = Sync | Insert | Delete | Update | Unrecognised(code: string)

  /** One operation of a batch; `items` is what a SYNC carries. The `range`,
      `item` and `index` of the other operations are only logged. */
  datatype Operation = Operation(op: OpCode, items: seq<Item>)

  /** A member-list update: header fields and the operations. */
  datatype ListUpdate = ListUpdate(
    id: string, groups: seq<Group>, memberCount: int, onlineCount: int, ops: seq<Operation>)

  /** The upper-cased name of the group's role, or the group id when the guild has no such role; a role's name is used even when empty. */
  function GroupTitle(groupId: string, roles: map<string, Role>): string {
    Upper(if groupId in roles then roles[groupId].name else groupId)
  }

  /** The member's user carries a non-empty id found in the guild's member table. */
  predicate IsKnown(p: MemberPayload, known: set<string>) {
    p.user.Present? && p.user.value.id != "" && p.user.value.id in known
  }

  /** The user's name, or "" for a missing user (the comparator treats both as no name). */
  function Username(u: Field<User>): string {
    if u.Present? then u.value.username else ""
  }

  function AppendToLast<M>(bs: seq<Bucket<M>>, a: Attached<M>): (r: seq<Bucket<M>>)
    requires |bs| > 0
    ensures |r| == |bs|
  {
    bs[..|bs| - 1] + [Bucket(bs[|bs| - 1].title, bs[|bs| - 1].data + [a])]
  }

  // ------------------------------------------------ the walk over a SYNC's items

  datatype WalkStop = Going | KnownMemberAt(item: nat) | NoGroupAt(item: nat)

  /** The state of the item loop of one SYNC: the buckets built so far, with
      members named by their item position; the payloads a `GuildMember` was
      constructed from; and whether the loop has left. */
  datatype Walk = Walk(buckets: seq<Bucket<nat>>, built: seq<MemberPayload>, stop: WalkStop)

  /** One iteration of the item loop (src/stores/GuildMemberListStore.ts:63-87). */
  function StepItem(w: Walk, item: Item, k: nat, known: set<string>, roles: map<string, Role>): Walk
    requires w.stop.Going?
  {
    match item
    case GroupMarker(g) =>
      w.(buckets := w.buckets + [Bucket(GroupTitle(g, roles), [])])
    case MemberItem(p, index) =>
      if IsKnown(p, known) then
        // the push into `listData[listData.length - 1]` throws when there is no bucket; otherwise `return`
        if |w.buckets| == 0 then w.(stop := NoGroupAt(k)) else w.(stop := KnownMemberAt(k))
      else if |w.buckets| == 0 then
        w.(stop := NoGroupAt(k))
      else
        w.(buckets := AppendToLast(w.buckets, Attached(k, index, Username(p.user))), built := w.built + [p])
  }

  /** The item loop run over the first `n` items. */
  function WalkItems(items: seq<Item>, n: nat, known: set<string>, roles: map<string, Role>): Walk
    requires n <= |items|
  {
    if n == 0 then Walk([], [], Going)
    else
      var w := WalkItems(items, n - 1, known, roles);
      if w.stop.Going? then StepItem(w, items[n - 1], n - 1, known, roles) else w
  }

  // ------------------------------------------------ a batch of operations

  /** What the batch has done to `list`: nothing, or assigned the render list of
      the SYNC at position `op` (members named by their item position). */
  datatype ListValue = Untouched | Replaced(op: nat, entries: seq<Entry<nat>>)

  /** How `computeListData` ended: ran to the end; left by the `return` on a
      known member (the caller cannot tell this from the first); or threw a
      `TypeError` on a member with no bucket to go to. */
  datatype Outcome = Finished | EarlyReturn(op: nat, item: nat) | TypeError(op: nat, item: nat)

  datatype Run = Run(list: ListValue, built: seq<MemberPayload>, outcome: Outcome)

  /** One iteration of the operation loop (src/stores/GuildMemberListStore.ts:54-188):
      DELETE, UPDATE and unknown codes only log; INSERT does nothing. */
  function StepOp(r: Run, op: Operation, j: nat, known: set<string>, roles: map<string, Role>): Run
    requires r.outcome.Finished?
  {
    if op.op.Sync? then
      var w := WalkItems(op.items, |op.items|, known, roles);
      var built := r.built + w.built;
      match w.stop
      case Going => Run(Replaced(j, Render(w.buckets)), built, Finished)
      case KnownMemberAt(k) => Run(r.list, built, EarlyReturn(j, k))
      case NoGroupAt(k) => Run(r.list, built, TypeError(j, k))
    else r
  }

  /** `computeListData` over the first `n` operations. */
  function RunOps(ops: seq<Operation>, n: nat, known: set<string>, roles: map<string, Role>): Run
    requires n <= |ops|
  {
    if n == 0 then Run(Untouched, [], Finished)
    else
      var r := RunOps(ops, n - 1, known, roles);
      if r.outcome.Finished? then StepOp(r, ops[n - 1], n - 1, known, roles) else r
  }

  /** The presences handed to the presence store by constructing members from `ps`, in order. */
  function PresencesOf(ps: seq<MemberPayload>): seq<Presence> {
    if |ps| == 0 then [] else PresencesOf(ps[..|ps| - 1]) + PresenceOf(ps[|ps| - 1])
  }

  lemma PresencesOfSnoc(ps: seq<MemberPayload>, p: MemberPayload)
    ensures PresencesOf(ps + [p]) == PresencesOf(ps) + PresenceOf(p)
  {
    assert (ps + [p])[..|ps|] == ps;
  }

  lemma {:induction false} PresencesOfConcat(ps: seq<MemberPayload>, qs: seq<MemberPayload>)
    ensures PresencesOf(ps + qs) == PresencesOf(ps) + PresencesOf(qs)
    decreases |qs|
  {
    if |qs| == 0 {
      assert ps + qs == ps;
    } else {
      var front, p := qs[..|qs| - 1], qs[|qs| - 1];
      calc {
        PresencesOf(ps + qs);
        == { assert ps + qs == (ps + front) + [p]; PresencesOfSnoc(ps + front, p); }
        PresencesOf(ps + front) + PresenceOf(p);
        == { PresencesOfConcat(ps, front); }
        (PresencesOf(ps) + PresencesOf(front)) + PresenceOf(p);
        == { AppendAssoc(PresencesOf(ps), PresencesOf(front), PresenceOf(p)); }
        PresencesOf(ps) + (PresencesOf(front) + PresenceOf(p));
        == { assert qs == front + [p]; PresencesOfSnoc(front, p); }
        PresencesOf(ps) + PresencesOf(qs);
      }
    }
  }

  /** Each `GuildMember` built in the walk was constructed from the payload of
      the member item at its position. */
  ghost predicate Made(made: map<nat, GuildMember>, items: seq<Item>) {
    forall k :: k in made ==> k < |items| && items[k].MemberItem? && made[k].origin == items[k].member
  }

  /** Each `GuildMember` built in the walk holds the fields its constructor
      sets from the payload at its position: the payload's fields, with the
      role ids resolved through the guild's role table. */
  ghost predicate Built(made: map<nat, GuildMember>, items: seq<Item>, roles: map<string, Role>)
    reads made.Values
  {
    forall k :: k in made ==> k < |items| && items[k].MemberItem? && made[k].State() == Initial(items[k].member, roles)
  }

  /** Every member in `made` still holds the fields its constructor set from
      the payload it was built from. With `Made`, which names that payload,
      this gives the fields of the member at each item position (`BuiltOfMade`). */
  ghost predicate AsConstructed(made: map<nat, GuildMember>, roles: map<string, Role>)
    reads made.Values
  {
    forall k :: k in made ==> made[k].State() == Initial(made[k].origin, roles)
  }

  /** A walk's members, named by position, are as constructed. */
  lemma AsConstructedOfBuilt(made: map<nat, GuildMember>, items: seq<Item>, roles: map<string, Role>)
    requires Made(made, items) && Built(made, items, roles)
    ensures AsConstructed(made, roles)
  {
  }

  /** The member at each item position holds the fields its constructor sets
      from that item's payload. */
  lemma BuiltOfMade(made: map<nat, GuildMember>, items: seq<Item>, roles: map<string, Role>)
    requires Made(made, items) && AsConstructed(made, roles)
    ensures Built(made, items, roles)
  {
  }

  /** The operation loop after `n` operations: the outcome, the forwarded
      presences and `list` are those `RunOps` gives. */
  ghost predicate Ran(ops: seq<Operation>, n: nat, known: set<string>, roles: map<string, Role>, outcome: Outcome,
                      list: seq<Entry<GuildMember>>, before: seq<Entry<GuildMember>>, made: map<nat, GuildMember>,
                      presences: seq<Presence>, base: seq<Presence>)
  {
    && n <= |ops|
    && var r := RunOps(ops, n, known, roles);
    && outcome == r.outcome
    && presences == base + PresencesOf(r.built)
    && Shows(list, before, r.list, ops, made)
  }

  /** Once the operation loop has left, the rest of the batch changes nothing. */
  lemma RanStays(ops: seq<Operation>, n: nat, known: set<string>, roles: map<string, Role>, outcome: Outcome,
                 list: seq<Entry<GuildMember>>, before: seq<Entry<GuildMember>>, made: map<nat, GuildMember>,
                 presences: seq<Presence>, base: seq<Presence>)
    requires Ran(ops, n, known, roles, outcome, list, before, made, presences, base) && !outcome.Finished?
    ensures Ran(ops, |ops|, known, roles, outcome, list, before, made, presences, base)
  {
    RunStays(ops, n, |ops|, known, roles);
  }

  /** `list` is what the batch left: its value before, or the render list of
      the SYNC it names with each position replaced by the member built there. */
  ghost predicate Shows(list: seq<Entry<GuildMember>>, before: seq<Entry<GuildMember>>, v: ListValue,
                        ops: seq<Operation>, made: map<nat, GuildMember>)
  {
    match v
    case Untouched => list == before
    case Replaced(j, entries) =>
      j < |ops| && Made(made, ops[j].items) && EntriesIn(entries, made) && list == BindEntries(entries, made)
  }

  // ------------------------------------------------ lemmas about the walk and the batch

  lemma {:induction false} WalkStays(items: seq<Item>, n: nat, m: nat, known: set<string>, roles: map<string, Role>)
    requires n <= m <= |items|
    requires !WalkItems(items, n, known, roles).stop.Going?
    ensures WalkItems(items, m, known, roles) == WalkItems(items, n, known, roles)
    decreases m - n
  {
    if m > n {
      WalkStays(items, n, m - 1, known, roles);
    }
  }

  lemma {:induction false} RunStays(ops: seq<Operation>, n: nat, m: nat, known: set<string>, roles: map<string, Role>)
    requires n <= m <= |ops|
    requires !RunOps(ops, n, known, roles).outcome.Finished?
    ensures RunOps(ops, m, known, roles) == RunOps(ops, n, known, roles)
    decreases m - n
  {
    if m > n {
      RunStays(ops, n, m - 1, known, roles);
    }
  }

  /** A member item whose user the guild already knows, reached while a bucket
      is open, abandons the batch: the list keeps the value it had before that
      SYNC (before the call, when no earlier SYNC completed), the members built
      before it in the SYNC stay built, and no later operation has any effect. */
  lemma KnownMemberAbandonsBatch(ops: seq<Operation>, j: nat, k: nat, known: set<string>, roles: map<string, Role>)
    requires j < |ops| && ops[j].op.Sync? && k < |ops[j].items|
    requires RunOps(ops, j, known, roles).outcome.Finished?
    requires WalkItems(ops[j].items, k, known, roles).stop.Going?
    requires |WalkItems(ops[j].items, k, known, roles).buckets| > 0
    requires ops[j].items[k].MemberItem? && IsKnown(ops[j].items[k].member, known)
    ensures var before, r := RunOps(ops, j, known, roles), RunOps(ops, |ops|, known, roles);
      && r.outcome == EarlyReturn(j, k)
      && r.list == before.list
      && r.built == before.built + WalkItems(ops[j].items, k, known, roles).built
  {
    var items := ops[j].items;
    WalkNext(items, k, known, roles);
    LeaveBatch(ops, j, k, known, roles);
    RunNext(ops, j, known, roles);
  }

  /** A SYNC whose first item is a member (so no group marker precedes it)
      throws at that item before constructing anything: the list keeps its
      value and no later operation runs. */
  lemma MemberBeforeGroupThrows(ops: seq<Operation>, j: nat, known: set<string>, roles: map<string, Role>)
    requires j < |ops| && ops[j].op.Sync? && |ops[j].items| > 0 && ops[j].items[0].MemberItem?
    requires RunOps(ops, j, known, roles).outcome.Finished?
    ensures var before, r := RunOps(ops, j, known, roles), RunOps(ops, |ops|, known, roles);
      r == Run(before.list, before.built, TypeError(j, 0))
  {
    var items := ops[j].items;
    WalkNext(items, 0, known, roles);
    LeaveBatch(ops, j, 0, known, roles);
    RunNext(ops, j, known, roles);
  }

  /** A batch with no SYNC leaves everything as it was. */
  lemma {:induction false} InertOpsLeaveList(ops: seq<Operation>, n: nat, known: set<string>, roles: map<string, Role>)
    requires n <= |ops|
    requires forall i :: 0 <= i < n ==> !ops[i].op.Sync?
    ensures RunOps(ops, n, known, roles) == Run(Untouched, [], Finished)
  {
    if n > 0 {
      InertOpsLeaveList(ops, n - 1, known, roles);
    }
  }

  /** The walk read as a stream: each bucket as its title followed by its members. */
  datatype Token = GroupToken(title: string) | MemberToken(item: nat, index: int, name: string)

  function BucketTokens(b: Bucket<nat>): seq<Token> {
    [GroupToken(b.title)] + AttachedTokens(b.data)
  }

  function AttachedTokens(data: seq<Attached<nat>>): seq<Token> {
    if |data| == 0 then []
    else
      var a := data[|data| - 1];
      AttachedTokens(data[..|data| - 1]) + [MemberToken(a.member, a.index, a.name)]
  }

  function Tokens(bs: seq<Bucket<nat>>): seq<Token> {
    if |bs| == 0 then [] else Tokens(bs[..|bs| - 1]) + BucketTokens(bs[|bs| - 1])
  }

  /** The items read as a stream, independently of any bucket. */
  function ItemTokens(items: seq<Item>, n: nat, roles: map<string, Role>): seq<Token>
    requires n <= |items|
  {
    if n == 0 then []
    else
      var t := match items[n - 1]
        case GroupMarker(g) => GroupToken(GroupTitle(g, roles))
        case MemberItem(p, index) => MemberToken(n - 1, index, Username(p.user));
      ItemTokens(items, n - 1, roles) + [t]
  }

  /** The payloads of the member items, in order. */
  function MemberPayloads(items: seq<Item>, n: nat): seq<MemberPayload>
    requires n <= |items|
  {
    if n == 0 then []
    else if items[n - 1].MemberItem? then MemberPayloads(items, n - 1) + [items[n - 1].member]
    else MemberPayloads(items, n - 1)
  }

  /** All the members a SYNC names are new and a group marker comes first:
      the walk never leaves early, opens one bucket per marker titled with
      the upper-cased role name (else the group id), attaches every member
      to the bucket of the marker before it, in item order, and constructs a
      `GuildMember` from every member payload. */
  lemma {:induction false} WalkOfNewMembers(items: seq<Item>, n: nat, known: set<string>, roles: map<string, Role>)
    requires n <= |items|
    requires n > 0 ==> items[0].GroupMarker?
    requires forall i :: 0 <= i < n && items[i].MemberItem? ==> !IsKnown(items[i].member, known)
    ensures WalkedNew(items, n, known, roles)
    ensures n > 0 ==> |WalkItems(items, n, known, roles).buckets| > 0
  {
    if n > 0 {
      WalkOfNewMembers(items, n - 1, known, roles);
      if items[n - 1].GroupMarker? {
        GroupStep(items, n - 1, known, roles);
      } else {
        NewMemberStep(items, n - 1, known, roles);
      }
    }
  }

  /** After `n` items of new members the walk is still going, its buckets read
      as the items do, and it has constructed a member from every member payload. */
  ghost predicate WalkedNew(items: seq<Item>, n: nat, known: set<string>, roles: map<string, Role>)
    requires n <= |items|
  {
    var w := WalkItems(items, n, known, roles);
    && w.stop.Going?
    && Tokens(w.buckets) == ItemTokens(items, n, roles)
    && w.built == MemberPayloads(items, n)
  }

  lemma GroupStep(items: seq<Item>, k: nat, known: set<string>, roles: map<string, Role>)
    requires k < |items| && items[k].GroupMarker?
    requires WalkedNew(items, k, known, roles)
    ensures WalkedNew(items, k + 1, known, roles)
    ensures |WalkItems(items, k + 1, known, roles).buckets| > 0
  {
    var w := WalkItems(items, k, known, roles);
    WalkNext(items, k, known, roles);
    var b := Bucket(GroupTitle(items[k].groupId, roles), []);
    TokensSnoc(w.buckets, b);
    assert BucketTokens(b) == [GroupToken(b.title)];
  }

  lemma NewMemberStep(items: seq<Item>, k: nat, known: set<string>, roles: map<string, Role>)
    requires k < |items| && items[k].MemberItem? && !IsKnown(items[k].member, known)
    requires WalkedNew(items, k, known, roles)
    requires |WalkItems(items, k, known, roles).buckets| > 0
    ensures WalkedNew(items, k + 1, known, roles)
    ensures |WalkItems(items, k + 1, known, roles).buckets| > 0
  {
    var w := WalkItems(items, k, known, roles);
    WalkNext(items, k, known, roles);
    var p := items[k].member;
    TokensAppendToLast(w.buckets, Attached(k, items[k].index, Username(p.user)));
  }

  lemma TokensSnoc(bs: seq<Bucket<nat>>, b: Bucket<nat>)
    ensures Tokens(bs + [b]) == Tokens(bs) + BucketTokens(b)
  {
    assert (bs + [b])[..|bs|] == bs;
  }

  lemma TokensAppendToLast(bs: seq<Bucket<nat>>, a: Attached<nat>)
    requires |bs| > 0
    ensures Tokens(AppendToLast(bs, a)) == Tokens(bs) + [MemberToken(a.member, a.index, a.name)]
  {
    TokensGrowLast(bs[..|bs| - 1], bs[|bs| - 1], a);
  }

  lemma TokensGrowLast(front: seq<Bucket<nat>>, last: Bucket<nat>, a: Attached<nat>)
    ensures Tokens(front + [Bucket(last.title, last.data + [a])]) == Tokens(front + [last]) + [MemberToken(a.member, a.index, a.name)]
  {
    TokensSnoc(front, last);
    TokensSnoc(front, Bucket(last.title, last.data + [a]));
    AttachedTokensSnoc(last.data, a);
  }

  lemma AttachedTokensSnoc(data: seq<Attached<nat>>, a: Attached<nat>)
    ensures AttachedTokens(data + [a]) == AttachedTokens(data) + [MemberToken(a.member, a.index, a.name)]
  {
    assert (data + [a])[..|data|] == data;
  }

  /** A SYNC of new members, reached while the batch is still running, replaces
      the list with the render list of the buckets its items describe. */
  lemma SyncOfNewMembersReplaces(ops: seq<Operation>, j: nat, known: set<string>, roles: map<string, Role>)
    requires j < |ops| && ops[j].op.Sync?
    requires ops[j].items != [] ==> ops[j].items[0].GroupMarker?
    requires forall i :: 0 <= i < |ops[j].items| && ops[j].items[i].MemberItem? ==> !IsKnown(ops[j].items[i].member, known)
    requires RunOps(ops, j, known, roles).outcome.Finished?
    ensures var items := ops[j].items;
      var w, r := WalkItems(items, |items|, known, roles), RunOps(ops, j + 1, known, roles);
      && Tokens(w.buckets) == ItemTokens(items, |items|, roles)
      && w.built == MemberPayloads(items, |items|)
      && r.outcome == Finished
      && r.list == Replaced(j, Render(w.buckets))
      && r.built == RunOps(ops, j, known, roles).built + MemberPayloads(items, |items|)
  {
    WalkOfNewMembers(ops[j].items, |ops[j].items|, known, roles);
  }

  // ------------------------------------------------ the store

  class GuildMemberListStore {
    const domain: Domain
    const guild: Guild

    var id: string
    var groups: seq<Group>
    var memberCount: int
    var onlineCount: int
    var list: seq<Entry<GuildMember>>

    /** How the first update's operations ended during construction. A
        `TypeError` here means the source's `new` throws and no store exists. */
    ghost var constructed: Outcome

    /** Takes the header of the first update, starts from an empty list and
        applies the update's operations. */
    constructor (domain: Domain, guild: Guild, data: ListUpdate)
      modifies domain
      ensures this.domain == domain && this.guild == guild
      ensures id == data.id && groups == data.groups
      ensures memberCount == data.memberCount && onlineCount == data.onlineCount
      ensures var r := RunOps(data.ops, |data.ops|, guild.members.Keys, guild.roles);
        && constructed == r.outcome
        && domain.presences == old(domain.presences) + PresencesOf(r.built)
        && exists made :: Shows(list, [], r.list, data.ops, made) && AsConstructed(made, guild.roles)
    {
      this.domain := domain;
      this.guild := guild;
      id := data.id;
      groups := data.groups;
      memberCount := data.memberCount;
      onlineCount := data.onlineCount;
      list := [];
      constructed := RunOps(data.ops, |data.ops|, guild.members.Keys, guild.roles).outcome;
      new;
      var _, made := ComputeListData(data.ops);
      assert Shows(list, [], RunOps(data.ops, |data.ops|, guild.members.Keys, guild.roles).list, data.ops, made);
    }

    /** Overwrites the header with the update's, whatever its operations, and
        then applies the operations. */
    method Update(data: ListUpdate) returns (outcome: Outcome, ghost made: map<nat, GuildMember>)
      modifies this, domain
      ensures constructed == old(constructed)
      ensures id == data.id && groups == data.groups
      ensures memberCount == data.memberCount && onlineCount == data.onlineCount
      ensures var r := RunOps(data.ops, |data.ops|, guild.members.Keys, guild.roles);
        && outcome == r.outcome
        && domain.presences == old(domain.presences) + PresencesOf(r.built)
        && Shows(list, old(list), r.list, data.ops, made)
        && AsConstructed(made, guild.roles)
    {
      id := data.id;
      groups := data.groups;
      memberCount := data.memberCount;
      onlineCount := data.onlineCount;
      outcome, made := ComputeListData(data.ops);
    }

    /** The whole batch: the outcome, the forwarded presences and `list` are
        those `RunOps` gives for all of `ops` (see `Ran`). */
    method ComputeListData(ops: seq<Operation>) returns (outcome: Outcome, ghost made: map<nat, GuildMember>)
      modifies this`list, domain`presences
      ensures Ran(ops, |ops|, guild.members.Keys, guild.roles, outcome, list, old(list), made, domain.presences, old(domain.presences))
      ensures AsConstructed(made, guild.roles)
    {
      ghost var known, roles := guild.members.Keys, guild.roles;
      made := map[];
      outcome := Finished;
      var j := 0;
      while j < |ops|
        invariant j <= |ops| && known == guild.members.Keys && roles == guild.roles && outcome.Finished?
        invariant Ran(ops, j, known, roles, outcome, list, old(list), made, domain.presences, old(domain.presences))
        invariant AsConstructed(made, roles)
      {
        outcome, made := ApplyOp(ops, j, known, roles, made, old(list), old(domain.presences));
        if !outcome.Finished? {
          RanStays(ops, j + 1, known, roles, outcome, list, old(list), made, domain.presences, old(domain.presences));
          return;
        }
        j := j + 1;
      }
    }

    /** One operation of the batch (src/stores/GuildMemberListStore.ts:55-188):
        a SYNC rebuilds the list; DELETE, UPDATE and unknown codes only log,
        and INSERT does nothing. */
    method ApplyOp(ops: seq<Operation>, j: nat, ghost known: set<string>, ghost roles: map<string, Role>,
                   ghost made: map<nat, GuildMember>, ghost before: seq<Entry<GuildMember>>, ghost base: seq<Presence>)
      returns (outcome: Outcome, ghost made': map<nat, GuildMember>)
      requires known == guild.members.Keys && roles == guild.roles && j < |ops|
      requires Ran(ops, j, known, roles, Finished, list, before, made, domain.presences, base)
      requires AsConstructed(made, roles)
      modifies this`list, domain`presences
      ensures Ran(ops, j + 1, known, roles, outcome, list, before, made', domain.presences, base)
      ensures AsConstructed(made', roles)
    {
      RunNext(ops, j, known, roles);
      if ops[j].op.Sync? {
        outcome, made' := SyncOp(ops, j, known, roles, made, before, base);
      } else {
        made', outcome := made, Finished;
      }
    }

    /** A SYNC operation of the batch: walks its items and, when the walk
        completes, renders the buckets into `list`. */
    method SyncOp(ops: seq<Operation>, j: nat, ghost known: set<string>, ghost roles: map<string, Role>,
                  ghost made: map<nat, GuildMember>, ghost before: seq<Entry<GuildMember>>, ghost base: seq<Presence>)
      returns (outcome: Outcome, ghost made': map<nat, GuildMember>)
      requires known == guild.members.Keys && roles == guild.roles && j < |ops| && ops[j].op.Sync?
      requires Ran(ops, j, known, roles, Finished, list, before, made, domain.presences, base)
      requires AsConstructed(made, roles)
      modifies this`list, domain`presences
      ensures Ran(ops, j + 1, known, roles, outcome, list, before, made', domain.presences, base)
      ensures AsConstructed(made', roles)
    {
      ghost var run := RunOps(ops, j, known, roles);
      RunNext(ops, j, known, roles);
      ghost var w := WalkItems(ops[j].items, |ops[j].items|, known, roles);
      var stop, built := Sync(ops[j].items);
      PresencesOfConcat(run.built, w.built);
      AppendAssoc(base, PresencesOf(run.built), PresencesOf(w.built));
      made', outcome := made, Finished;
      match stop
      case Going =>
        made' := built;
        AsConstructedOfBuilt(built, ops[j].items, roles);
      case KnownMemberAt(k) => outcome := EarlyReturn(j, k);
      case NoGroupAt(k) => outcome := TypeError(j, k);
    }

    /** One SYNC: walks its items and, when the walk does not leave, replaces
        `list` with the render list of the buckets it built. */
    method Sync(items: seq<Item>) returns (stop: WalkStop, ghost built: map<nat, GuildMember>)
      modifies this`list, domain`presences
      ensures var w := WalkItems(items, |items|, guild.members.Keys, guild.roles);
        && stop == w.stop
        && domain.presences == old(domain.presences) + PresencesOf(w.built)
        && (stop.Going? ==> Made(built, items) && Built(built, items, guild.roles) && EntriesIn(Render(w.buckets), built)
                            && list == BindEntries(Render(w.buckets), built))
        && (!stop.Going? ==> list == old(list))
    {
      ghost var w := WalkItems(items, |items|, guild.members.Keys, guild.roles);
      var listData;
      listData, built, stop := WalkSync(items);
      if stop.Going? {
        BoundIsBind(w.buckets, built);
        RenderBind(w.buckets, built);
        list := Render(listData);
      }
    }

    /** The item loop of one SYNC (src/stores/GuildMemberListStore.ts:63-87):
        builds the buckets, constructing a `GuildMember` for every new member,
        and leaves at a known member or at a member with no bucket. */
    method WalkSync(items: seq<Item>) returns (listData: seq<Bucket<GuildMember>>, ghost built: map<nat, GuildMember>, stop: WalkStop)
      modifies domain`presences
      ensures var w := WalkItems(items, |items|, guild.members.Keys, guild.roles);
        && stop == w.stop
        && domain.presences == old(domain.presences) + PresencesOf(w.built)
        && (stop.Going? ==> BucketsIn(w.buckets, built) && listData == Bound(w.buckets, built) && Made(built, items))
        && (stop.Going? ==> Built(built, items, guild.roles))
    {
      ghost var known, roles := guild.members.Keys, guild.roles;
      listData := [];
      built := map[];
      stop := Going;
      ghost var w := WalkItems(items, 0, known, roles);
      var k := 0;
      while k < |items|
        invariant k <= |items| && stop.Going?
        invariant Walked(items, k, known, roles, w, listData, built, domain.presences, old(domain.presences))
        invariant Built(built, items, roles)
      {
        ghost var next;
        listData, built, stop, next := SyncItem(items, k, known, roles, w, listData, built, old(domain.presences));
        if !stop.Going? {
          WalkStays(items, k + 1, |items|, known, roles);
          return;
        }
        w := next;
        k := k + 1;
      }
    }

    /** One iteration of the item loop: a group marker opens a bucket titled
        with the upper-cased role name (else the group id); a new member is
        constructed and attached to the last bucket; a known member, or a
        member with no bucket to go to, ends the walk. */
    method SyncItem(items: seq<Item>, k: nat, ghost known: set<string>, ghost roles: map<string, Role>,
                    ghost w: Walk, listData: seq<Bucket<GuildMember>>,
                    ghost built: map<nat, GuildMember>, ghost base: seq<Presence>)
      returns (listData': seq<Bucket<GuildMember>>, ghost built': map<nat, GuildMember>, stop: WalkStop, ghost w': Walk)
      requires known == guild.members.Keys && roles == guild.roles && k < |items|
      requires Walked(items, k, known, roles, w, listData, built, domain.presences, base)
      requires Built(built, items, roles)
      modifies domain`presences
      ensures w' == WalkItems(items, k + 1, known, roles) && stop == w'.stop
      ensures domain.presences == base + PresencesOf(w'.built)
      ensures stop.Going? ==> Walked(items, k + 1, known, roles, w', listData', built', domain.presences, base)
      ensures stop.Going? ==> Built(built', items, roles)
    {
      WalkNext(items, k, known, roles);
      var item := items[k];
      built', listData', w' := built, listData, w;
      BoundLength(w.buckets, built);
      if item.GroupMarker? {
        var title := GroupTitle(item.groupId, guild.roles);
        listData' := listData + [Bucket(title, [])];
        w' := Walk(w.buckets + [Bucket(title, [])], w.built, Going);
        OpenedSynced(w, listData, built, k, items, title);
        stop := Going;
        return;
      }
      var p, index := item.member, item.index;
      if p.user.Present? && p.user.value.id != "" && p.user.value.id in guild.members {
        var member := guild.members[p.user.value.id];
        if |listData| == 0 {
          stop := NoGroupAt(k);
        } else {
          listData' := AppendToLast(listData, Attached(member, index, Username(member.user)));
          stop := KnownMemberAt(k);
        }
        w' := w.(stop := stop);
        return;
      }
      if |listData| == 0 {
        stop := NoGroupAt(k);
        w' := w.(stop := stop);
        return;
      }
      listData', built', w' := Admit(items, k, known, roles, w, listData, built, base);
      stop := Going;
    }

    /** A new member: constructs its `GuildMember`, which forwards its presence,
        and attaches it to the last bucket. */
    method Admit(items: seq<Item>, k: nat, ghost known: set<string>, ghost roles: map<string, Role>,
                 ghost w: Walk, listData: seq<Bucket<GuildMember>>,
                 ghost built: map<nat, GuildMember>, ghost base: seq<Presence>)
      returns (listData': seq<Bucket<GuildMember>>, ghost built': map<nat, GuildMember>, ghost w': Walk)
      requires known == guild.members.Keys && roles == guild.roles && k < |items|
      requires Walked(items, k, known, roles, w, listData, built, domain.presences, base)
      requires Built(built, items, roles)
      requires items[k].MemberItem? && |listData| > 0
      requires WalkItems(items, k + 1, known, roles) ==
               Walk(AppendToLast(w.buckets, Attached(k, items[k].index, Username(items[k].member.user))),
                    w.built + [items[k].member], Going)
      modifies domain`presences
      ensures Walked(items, k + 1, known, roles, w', listData', built', domain.presences, base)
      ensures Built(built', items, roles)
    {
      var p := items[k].member;
      var member := new GuildMember(domain, guild, p);
      listData' := AppendToLast(listData, Attached(member, items[k].index, Username(member.user)));
      built' := built[k := member];
      w' := Walk(AppendToLast(w.buckets, Attached(k, items[k].index, Username(p.user))), w.built + [p], Going);
      BoundLength(w.buckets, built);
      AttachedSynced(w, listData, built, k, items, member, w', listData', built');
      PresencesOfSnoc(w.built, p);
    }
  }

  lemma BoundLength<B>(bs: seq<Bucket<nat>>, m: map<nat, B>)
    requires BucketsIn(bs, m)
    ensures |Bound(bs, m)| == |bs|
  {
    BoundIsBind(bs, m);
  }

  /** A group marker keeps the loop state: the new empty bucket binds to itself. */
  lemma OpenedSynced(w: Walk, listData: seq<Bucket<GuildMember>>, built: map<nat, GuildMember>,
                     k: nat, items: seq<Item>, title: string)
    requires Synced(w, listData, built, k, items)
    ensures Synced(Walk(w.buckets + [Bucket(title, [])], w.built, Going), listData + [Bucket(title, [])], built, k + 1, items)
  {
    var b: Bucket<nat> := Bucket(title, []);
    BindSnocEmpty(w.buckets, b, built);
    assert (w.buckets + [b])[..|w.buckets|] == w.buckets;
    assert BindBucket(b, built) == Bucket(title, []);
  }

  /** A new member keeps the loop state: it is bound at its item position to
      the object constructed from its payload. */
  lemma AttachedSynced(w: Walk, listData: seq<Bucket<GuildMember>>, built: map<nat, GuildMember>,
                       k: nat, items: seq<Item>, member: GuildMember,
                       w': Walk, listData': seq<Bucket<GuildMember>>, built': map<nat, GuildMember>)
    requires k < |items| && items[k].MemberItem? && member.origin == items[k].member
    requires Synced(w, listData, built, k, items) && |w.buckets| > 0
    requires var a := Attached(k, items[k].index, Username(items[k].member.user));
      && w' == Walk(AppendToLast(w.buckets, a), w.built + [items[k].member], Going)
      && listData' == AppendToLast(listData, Attached(member, a.index, a.name))
      && built' == built[k := member]
    ensures Synced(w', listData', built', k + 1, items)
  {
    var a := Attached(k, items[k].index, Username(items[k].member.user));
    assert k !in built;
    BoundAppend(w.buckets, a, built, member);
    assert forall i :: i in built' ==> i < k + 1;
    assert BucketsIn(w'.buckets, built');
    assert listData' == Bound(w'.buckets, built');
    assert Made(built', items) by {
      forall i | i in built' ensures i < |items| && items[i].MemberItem? && built'[i].origin == items[i].member {
        if i != k {
          assert i in built;
        }
      }
    }
  }

  /** Attaching a member position that is not yet bound, and binding it, appends
      the bound member to the last bound bucket. */
  lemma BoundAppend<B>(bs: seq<Bucket<nat>>, a: Attached<nat>, m: map<nat, B>, x: B)
    requires |bs| > 0 && BucketsIn(bs, m) && a.member !in m
    ensures BucketsIn(AppendToLast(bs, a), m[a.member := x])
    ensures |Bound(bs, m)| > 0
    ensures Bound(AppendToLast(bs, a), m[a.member := x]) == AppendToLast(Bound(bs, m), Attached(x, a.index, a.name))
  {
    BoundIsBind(bs, m);
    BindAppend(bs, a, m, x);
    BoundIsBind(AppendToLast(bs, a), m[a.member := x]);
  }

  /** The item loop after `k` items has not stopped, is in the state `Synced`
      describes, and has forwarded the presence of every member it built. */
  ghost predicate Walked(items: seq<Item>, k: nat, known: set<string>, roles: map<string, Role>, w: Walk,
                         listData: seq<Bucket<GuildMember>>, built: map<nat, GuildMember>,
                         presences: seq<Presence>, base: seq<Presence>)
  {
    && k <= |items|
    && w == WalkItems(items, k, known, roles)
    && w.stop.Going?
    && Synced(w, listData, built, k, items)
    && presences == base + PresencesOf(w.built)
  }

  /** The state of the item loop after `k` items: the buckets hold the members
      built so far, each built from the payload at its position. */
  ghost predicate Synced(w: Walk, listData: seq<Bucket<GuildMember>>, built: map<nat, GuildMember>,
                         k: nat, items: seq<Item>)
  {
    && (forall i :: i in built ==> i < k)
    && BucketsIn(w.buckets, built)
    && listData == Bound(w.buckets, built)
    && Made(built, items)
  }

  /** `BindBuckets` unfolded bucket by bucket from the back. */
  ghost function Bound<B>(bs: seq<Bucket<nat>>, m: map<nat, B>): seq<Bucket<B>>
    requires BucketsIn(bs, m)
  {
    if |bs| == 0 then [] else Bound(bs[..|bs| - 1], m) + [BindBucket(bs[|bs| - 1], m)]
  }

  lemma {:induction false} BoundIsBind<B>(bs: seq<Bucket<nat>>, m: map<nat, B>)
    requires BucketsIn(bs, m)
    ensures Bound(bs, m) == BindBuckets(bs, m)
    decreases |bs|
  {
    if bs != [] {
      var front := bs[..|bs| - 1];
      BoundIsBind(front, m);
      assert BindBuckets(bs, m) == BindBuckets(front, m) + [BindBucket(bs[|bs| - 1], m)];
    }
  }

  lemma AppendAssoc<T>(a: seq<T>, b: seq<T>, c: seq<T>)
    ensures (a + b) + c == a + (b + c)
  {
  }

  /** One more item of a walk still going is one `StepItem`. */
  lemma WalkNext(items: seq<Item>, k: nat, known: set<string>, roles: map<string, Role>)
    requires k < |items| && WalkItems(items, k, known, roles).stop.Going?
    ensures WalkItems(items, k + 1, known, roles) == StepItem(WalkItems(items, k, known, roles), items[k], k, known, roles)
  {
  }

  /** One more operation of a batch still running is one `StepOp`. */
  lemma RunNext(ops: seq<Operation>, j: nat, known: set<string>, roles: map<string, Role>)
    requires j < |ops| && RunOps(ops, j, known, roles).outcome.Finished?
    ensures RunOps(ops, j + 1, known, roles) == StepOp(RunOps(ops, j, known, roles), ops[j], j, known, roles)
  {
  }

  /** Leaving the batch at item `k` of SYNC `j` ends the run there. */
  lemma LeaveBatch(ops: seq<Operation>, j: nat, k: nat, known: set<string>, roles: map<string, Role>)
    requires j < |ops| && ops[j].op.Sync? && k < |ops[j].items|
    requires RunOps(ops, j, known, roles).outcome.Finished?
    requires WalkItems(ops[j].items, k, known, roles).stop.Going?
    requires !WalkItems(ops[j].items, k + 1, known, roles).stop.Going?
    ensures RunOps(ops, |ops|, known, roles) == RunOps(ops, j + 1, known, roles)
    ensures WalkItems(ops[j].items, |ops[j].items|, known, roles) == WalkItems(ops[j].items, k + 1, known, roles)
  {
    WalkStays(ops[j].items, k + 1, |ops[j].items|, known, roles);
    RunStays(ops, j + 1, |ops|, known, roles);
  }

  lemma BindSnocEmpty<B>(bs: seq<Bucket<nat>>, b: Bucket<nat>, m: map<nat, B>)
    requires BucketsIn(bs, m) && b.data == []
    ensures BucketsIn(bs + [b], m)
    ensures BindBuckets(bs + [b], m) == BindBuckets(bs, m) + [Bucket(b.title, [])]
  {
    assert BindBucket(b, m) == Bucket(b.title, []);
  }

  lemma BindAppend<B>(bs: seq<Bucket<nat>>, a: Attached<nat>, m: map<nat, B>, x: B)
    requires |bs| > 0 && BucketsIn(bs, m) && a.member !in m
    ensures BucketsIn(AppendToLast(bs, a), m[a.member := x])
    ensures BindBuckets(AppendToLast(bs, a), m[a.member := x]) ==
            AppendToLast(BindBuckets(bs, m), Attached(x, a.index, a.name))
  {
    var m' := m[a.member := x];
    assert forall i :: 0 <= i < |bs| ==> BindBucket(bs[i], m') == BindBucket(bs[i], m) by {
      forall i | 0 <= i < |bs| ensures BindBucket(bs[i], m') == BindBucket(bs[i], m) {
        assert BindAttached(bs[i].data, m') == BindAttached(bs[i].data, m);
      }
    }
    var last := bs[|bs| - 1];
    var nl := Bucket(last.title, last.data + [a]);
    assert BindAttached(last.data + [a], m') == BindAttached(last.data, m) + [Attached(x, a.index, a.name)];
  }
}

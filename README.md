# Guild member list, guild members and channels — a Dafny model

This project models three state-holding objects of a chat client.

- **`GuildMemberListStore`** (`guild_member_list_store.dfy`, `member_list_pipeline.dfy`).
  - The store keeps the header of the last member-list update the gateway sent: its id, groups, member count and online count.
  - It also keeps the render list `list`: section titles interleaved with `GuildMember` objects.
  - An update first overwrites the header. Then it runs its operations.
  - Only SYNC does anything. It walks its items: a group marker opens a bucket titled with the upper-cased role name (else the group id), and a member item is attached to the last open bucket.
  - A member the guild does not know yet is constructed as a new `GuildMember`.
  - A member the guild already knows ends `computeListData` with a `return`. The model follows the code here:
    - that push goes into a local list and is lost;
    - the rest of that SYNC is abandoned, and so are all later operations of the batch;
    - `list` keeps its value.
  - A member item before any group marker indexes a bucket that does not exist, and the call throws a `TypeError`.
  - After a complete walk, the buckets go through a pipeline that becomes the new `list`:
    1. empty buckets are dropped;
    2. each title gets ` - n` appended;
    3. an "offline" bucket with 100 or more members is hidden;
    4. each bucket is sorted by lower-cased username;
    5. everything is flattened into titles followed by members.
  - DELETE, UPDATE and unknown codes only log; INSERT does nothing.
- **`GuildMember`** (`guild_member.dfy`).
  - The constructor copies the payload's fields.
  - It resolves role ids through the guild's role table, dropping unknown ids.
  - It hands a carried presence to the presence store.
  - `update` is `Object.assign`: every key the payload carries overwrites its field, so `roles` becomes the raw ids. It also forwards a carried presence.
- **`Channel`** (`channel.dfy`).
  - The constructor picks the channel's icon from its type and seeds the message store with the payload's messages.
  - `getChannelMessages` runs at most once: the flag is set before the request goes out.
  - When the request settles, it merges the fetched messages whose ids the store does not hold at that moment, in reverse fetched order. The model splits the method at its `await` into `GetChannelMessages` and `ReceiveChannelMessages`, so the store may change in between.

The item walk and the operation loop have two forms:
- pure specification functions over item positions (`WalkItems`, `RunOps`);
- imperative methods of the store class (`ComputeListData`, `ApplyOp`, `Sync`, `WalkSync`, `SyncItem`, `Admit`).

The methods are proved against the functions. The pipeline stages are pure functions, generic in the member type. `RenderBind` shows that rendering item positions and then substituting the constructed objects gives the same list the store renders. Each `GuildMember` records, as a ghost constant, the payload it was constructed from. The store's postconditions use it to say which object sits at each item position.

JavaScript's `undefined` is `Field.Absent`, and `null` is `Option.None`. Strings are sequences of characters.

## Model

| member | source | states |
|---|---|---|
| Text.Decimal | src/stores/GuildMemberListStore.ts:95 | a count is rendered as a non-empty string of decimal digits with no leading zero |
| Text.DecimalRoundTrip | src/stores/GuildMemberListStore.ts:95 | reading the digits of a title's count back gives the count, so the suffix determines the number |
| Text.LowerOfUpper | src/stores/GuildMemberListStore.ts:102 | lower-casing an upper-cased title gives the lower-cased original, so an upper-cased "offline" group id still matches the offline test |
| Text.LexTotal | src/stores/GuildMemberListStore.ts:120 | any two different strings are ordered one way or the other by `>` |
| Text.LexAsymmetric | src/stores/GuildMemberListStore.ts:120 | the string order is strict: never both ways, never a string before itself |
| MemberListPipeline.DropEmpty | src/stores/GuildMemberListStore.ts:90-91 | drops the buckets no member was attached to, in order; with the next two stages it is `Survives` in `StagesAreOneFilter`, and `KeptConcat` distributes it |
| MemberListPipeline.AddCounts | src/stores/GuildMemberListStore.ts:92-96 | appends ` - n` to every bucket's title, n its member count; its contract gives each result bucket as the counted input bucket, and `RenderedSectionFacts` reads the count back |
| MemberListPipeline.HideOffline | src/stores/GuildMemberListStore.ts:98-105 | removes a bucket whose lower-cased title starts with "offline" and that has 100 or more members; `OfflineThreshold` and `HideOfflineConcat` state its behaviour |
| MemberListPipeline.InsertByName | src/stores/GuildMemberListStore.ts:116-124 | inserts one bucket entry before the first entry it does not sort after under the source's comparator; `InsertOrders` states it keeps a name-ordered run ordered |
| MemberListPipeline.SortByName | src/stores/GuildMemberListStore.ts:115-124 | sorts a bucket by repeated `InsertByName`; `SortPermutes`, `SortPermutesLength`, `SortOrders` and `SortBind` state its properties |
| MemberListPipeline.Flatten | src/stores/GuildMemberListStore.ts:113-126 | lays sections out as each title followed by its members; its contract says it is empty exactly for no sections and starts with the first title; `ParseFlatten` and `FlattenConcat` state the rest |
| MemberListPipeline.Render | src/stores/GuildMemberListStore.ts:90-126 | the whole SYNC pipeline on a walk's buckets: drop, count, hide, sort, flatten; `RenderSections`, `RenderedSectionFacts`, `RenderOne`, `RenderConcat` and `RenderBind` state its properties |
| MemberListPipeline.StagesAreOneFilter | src/stores/GuildMemberListStore.ts:90-105 | dropping empty buckets, counting titles and hiding a large offline bucket equal one filter by `Survives` followed by counting |
| MemberListPipeline.OfflineThreshold | src/stores/GuildMemberListStore.ts:98-105 | a bucket titled "offline…" (any case) renders to nothing exactly when it has 0 or at least 100 members, so 99 members are kept |
| MemberListPipeline.RenderOne | src/stores/GuildMemberListStore.ts:90-126 | one bucket renders as its counted title followed by its members sorted by name, or as nothing when it does not survive |
| MemberListPipeline.RenderConcat | src/stores/GuildMemberListStore.ts:113-126 | buckets render independently and in order: the render list of a concatenation is the concatenation of render lists |
| MemberListPipeline.KeptConcat | src/stores/GuildMemberListStore.ts:90-105 | the surviving buckets of a concatenation are the surviving buckets of each part, in order |
| MemberListPipeline.HideOfflineConcat | src/stores/GuildMemberListStore.ts:99-105 | the offline filter distributes over concatenation |
| MemberListPipeline.FlattenConcat | src/stores/GuildMemberListStore.ts:113-126 | `flatMap` distributes over concatenation |
| MemberListPipeline.ParseFlatten | src/stores/GuildMemberListStore.ts:113-126 | reading a flattened list back as title-led sections gives the sections that were flattened |
| MemberListPipeline.RenderSections | src/stores/GuildMemberListStore.ts:90-126 | the render list read back is the sections of the surviving buckets in marker order, each with counted title and sorted members |
| MemberListPipeline.RenderedSectionFacts | src/stores/GuildMemberListStore.ts:91-125 | every header ends in ` - n`, where n is the number of members up to the next header; no section is empty or a hidden offline bucket; each section's members are a permutation of its bucket's |
| MemberListPipeline.SortPermutes | src/stores/GuildMemberListStore.ts:115-124 | sorting a bucket neither loses nor invents an attached member (multiset equality) |
| MemberListPipeline.SortMembersPermute | src/stores/GuildMemberListStore.ts:115-125 | the members a section shows are a permutation of the members attached to its bucket |
| MemberListPipeline.SortOrders | src/stores/GuildMemberListStore.ts:116-124 | when every member has a username, consecutive members are in non-decreasing order of lower-cased username |
| MemberListPipeline.InsertOrders | src/stores/GuildMemberListStore.ts:116-124 | inserting a named member into a name-ordered run keeps it name-ordered |
| MemberListPipeline.SortPermutesLength | src/stores/GuildMemberListStore.ts:115-124 | sorting keeps the number of members |
| MemberListPipeline.SortBind | src/stores/GuildMemberListStore.ts:116-124 | the sort looks only at names: sorting then substituting members equals substituting then sorting |
| MemberListPipeline.RenderBind | src/stores/GuildMemberListStore.ts:90-126 | rendering commutes with substituting members for item positions: the pipeline never looks at what a member is, only at its name |
| GuildMembers.ResolveRoles | src/stores/objects/GuildMember.ts:41-43 | no more roles than ids, and every role comes from the guild's role table |
| GuildMembers.ResolveRolesMembership | src/stores/objects/GuildMember.ts:41-43 | a role is in the result exactly when some id of the payload resolves to it |
| GuildMembers.ResolveRolesConcat | src/stores/objects/GuildMember.ts:41-43 | resolution keeps input order: resolving a concatenation resolves each part in turn |
| GuildMembers.ResolveRolesKeepsAll | src/stores/objects/GuildMember.ts:41-43 | as many roles as ids exactly when every id resolves |
| GuildMembers.ResolveRolesPointwise | src/stores/objects/GuildMember.ts:41-43 | when every id resolves, the i-th role is the role of the i-th id |
| GuildMembers.PresenceOf | src/stores/objects/GuildMember.ts:52-55 | one presence is forwarded exactly when the payload carries a `presence` key, and it is that presence |
| GuildMembers.Initial | src/stores/objects/GuildMember.ts:38-50 | the fields the constructor sets: every field copied, `roles` resolved through the role table; `AssignAgreesWithInitial` relates it to `Assign` |
| GuildMembers.Assign | src/stores/objects/GuildMember.ts:60 | `update` copies every carried key onto the member's fields; `AssignKeepsAbsent`, `AssignAgreesWithInitial` and `AssignIdempotent` state its properties |
| GuildMembers.AssignKeepsAbsent | src/stores/objects/GuildMember.ts:58-61 | `update` leaves every field whose key the payload lacks as it was |
| GuildMembers.AssignAgreesWithInitial | src/stores/objects/GuildMember.ts:58-61 | every field the payload carries ends as the constructor would set it, except `roles`, which holds the raw ids and is not resolved |
| GuildMembers.AssignIdempotent | src/stores/objects/GuildMember.ts:58-61 | applying the same payload twice is the same as applying it once |
| GuildMembers.GuildMember.constructor | src/stores/objects/GuildMember.ts:29-56 | every field is copied unchanged except `roles`, which holds the resolved roles; one presence is added exactly when the payload carries one; the member is not added to the guild's table |
| GuildMembers.GuildMember.Update | src/stores/objects/GuildMember.ts:58-66 | the new fields are the old ones overwritten by the payload's keys; one presence is added exactly when the payload carries one |
| MemberListStore.GroupTitle | src/stores/GuildMemberListStore.ts:65-68 | a group's title is its role's name upper-cased, or the group id upper-cased when the guild has no such role; `LowerOfUpper` relates it to the offline test |
| MemberListStore.IsKnown | src/stores/GuildMemberListStore.ts:73-75 | a member item's user carries a non-empty id that the guild's member table holds; `KnownMemberAbandonsBatch` states what follows |
| MemberListStore.StepItem | src/stores/GuildMemberListStore.ts:63-88 | one item of the walk: a marker opens a bucket, a new member is attached to the last bucket, a known member returns early, a member before any marker throws; `SyncItem` is proved against it |
| MemberListStore.WalkItems | src/stores/GuildMemberListStore.ts:63-88 | the walk over a SYNC's first n items; `WalkStays`, `WalkOfNewMembers` and `MemberBeforeGroupThrows` state its properties, and `WalkSync` is proved against it |
| MemberListStore.StepOp | src/stores/GuildMemberListStore.ts:54-188 | one operation: a SYNC walks its items and, when the walk completes, replaces the list with `Render` of the buckets; other codes change nothing; `ApplyOp` is proved against it |
| MemberListStore.RunOps | src/stores/GuildMemberListStore.ts:54-188 | the operation loop over the first n operations, stopping at an early return or a throw; `RunStays`, `InertOpsLeaveList`, `SyncOfNewMembersReplaces` and `KnownMemberAbandonsBatch` state its properties, and `ComputeListData` is proved against it |
| MemberListStore.WalkStays | src/stores/GuildMemberListStore.ts:80 | once the item walk has left, further items change nothing |
| MemberListStore.RunStays | src/stores/GuildMemberListStore.ts:54-80 | once the operation loop has left, further operations change nothing |
| MemberListStore.WalkOfNewMembers | src/stores/GuildMemberListStore.ts:63-88 | when a group marker comes first and every member is new, the walk never leaves; its buckets read as the items do; a member is constructed from every member payload, in order |
| MemberListStore.SyncOfNewMembersReplaces | src/stores/GuildMemberListStore.ts:57-128 | such a SYNC completes and replaces the list with the render list of the buckets its markers open, in marker order |
| MemberListStore.KnownMemberAbandonsBatch | src/stores/GuildMemberListStore.ts:73-81 | a known member ends the batch: the list keeps its value, members built earlier in that SYNC stay built, and no later operation has any effect |
| MemberListStore.MemberBeforeGroupThrows | src/stores/GuildMemberListStore.ts:71-86 | a member item before any group marker throws before constructing anything; the list keeps its value and no later operation runs |
| MemberListStore.InertOpsLeaveList | src/stores/GuildMemberListStore.ts:129-187 | a batch of DELETE, UPDATE, INSERT and unknown operations (DELETE, UPDATE and unknown codes log; INSERT does nothing) leaves the list, the members and the outcome untouched |
| MemberListStore.OpenedSynced | src/stores/GuildMemberListStore.ts:64-70 | opening a bucket keeps the loop's buckets equal to the specification's, with the new bucket empty |
| MemberListStore.AttachedSynced | src/stores/GuildMemberListStore.ts:83-86 | attaching a new member keeps the loop's buckets equal to the specification's, with the new object at its item position |
| MemberListStore.BuiltOfMade | src/stores/objects/GuildMember.ts:38-50 | a member recorded as built from the payload at an item position, and still as constructed, holds that payload's fields with role ids resolved through the guild's roles |
| MemberListStore.GuildMemberListStore.constructor | src/stores/GuildMemberListStore.ts:22-38 | the header is the first update's; the list starts empty and becomes what the operations leave; the presences of the members built are forwarded in order; every member placed in the list holds the fields its constructor sets from the payload at its item position (the payload's fields, role ids resolved through the guild's roles); `constructed` records the outcome, and a `TypeError` there is the case where the source's `new` throws and no store exists |
| MemberListStore.GuildMemberListStore.Update | src/stores/GuildMemberListStore.ts:40-49 | the header is overwritten with the update's whatever the operations do, and `constructed` keeps its value; then the list, the outcome and the forwarded presences are those of running the operations, and every member a SYNC places in the list holds the fields its constructor sets from the payload at its item position (the payload's fields, role ids resolved through the guild's roles) |
| MemberListStore.GuildMemberListStore.ComputeListData | src/stores/GuildMemberListStore.ts:51-190 | the outcome (finished, early return, TypeError) and the forwarded presences are those of `RunOps`; `list` is its old value or the last completed SYNC's render list with each position replaced by the member built there, which holds the fields its constructor sets from the payload at its item position (the payload's fields, role ids resolved through the guild's roles) |
| MemberListStore.GuildMemberListStore.ApplyOp | src/stores/GuildMemberListStore.ts:54-188 | one operation does what `StepOp` says: a SYNC may replace the list with members that hold their constructor's fields; the other codes change nothing |
| MemberListStore.GuildMemberListStore.SyncOp | src/stores/GuildMemberListStore.ts:57-128 | a SYNC operation advances the batch as `StepOp` does: a completed walk replaces the list and the members built hold their constructor's fields; a known member is an early return and a member before any group a `TypeError`, both keeping the list |
| MemberListStore.GuildMemberListStore.Sync | src/stores/GuildMemberListStore.ts:57-128 | a walk that does not leave replaces `list` with the rendered buckets, each position bound to a member holding the fields its constructor sets from the payload at its item position (the payload's fields, role ids resolved through the guild's roles); one that leaves keeps `list` |
| MemberListStore.GuildMemberListStore.WalkSync | src/stores/GuildMemberListStore.ts:63-88 | the loop builds the buckets `WalkItems` describes, with each item position bound to a member holding the fields its constructor sets from the payload at its item position (the payload's fields, role ids resolved through the guild's roles) |
| MemberListStore.GuildMemberListStore.SyncItem | src/stores/GuildMemberListStore.ts:64-87 | one item advances the loop exactly as `StepItem` does, and every member built so far holds its constructor's fields |
| MemberListStore.GuildMemberListStore.Admit | src/stores/GuildMemberListStore.ts:83-86 | a new member is constructed from its payload, holds the fields its constructor sets from the payload at its item position (the payload's fields, role ids resolved through the guild's roles), forwards its presence, and is attached to the last bucket |
| Channels.ChannelIcon | src/stores/objects/Channel.ts:92-133 | the whole switch as one iff per icon: pound and volume-high for one type each, four icons each shared by a pair of types, six more icons for one type each; no icon exactly for DM, GroupDM, GuildCategory and unlisted codes |
| Channels.IconsDistinct | src/stores/objects/Channel.ts:92-133 | two different types share an icon only in the four pairs the switch groups together |
| Channels.Unseen | src/stores/objects/Channel.ts:159 | the fetched messages whose id the store does not hold, in fetched order; its contract bounds its length, and `UnseenMembership` characterises it |
| Channels.NewMessages | src/stores/objects/Channel.ts:158-159 | what the merge hands to `addAll`: `Unseen` reversed; `NewMessagesMembership`, `NewMessagesConcat`, `MergeCovers` and `RepeatedFetchedMessageAddedTwice` state its properties |
| Channels.UnseenMembership | src/stores/objects/Channel.ts:159 | the filter keeps a fetched message exactly when the store holds no message with its id |
| Channels.NewMessagesMembership | src/stores/objects/Channel.ts:158-159 | the merge adds exactly the fetched messages whose id is not stored |
| Channels.NewMessagesConcat | src/stores/objects/Channel.ts:159 | the merge reverses fetched order: of two fetched runs the later comes first, each reversed |
| Channels.MergeCovers | src/stores/objects/Channel.ts:158-165 | after the merge the stored messages stay in front and unchanged, every fetched id is stored, and merging the same fetch again adds nothing |
| Channels.RepeatedFetchedMessageAddedTwice | src/stores/objects/Channel.ts:159 | only the store is consulted, not the fetch itself: a new message fetched twice in one response is passed to `addAll` twice |
| Channels.RequestLimit | src/stores/objects/Channel.ts:155 | the requested limit is 50 when the limit is absent or 0, and the given limit otherwise; it is never 0 |
| Channels.Channel.constructor | src/stores/objects/Channel.ts:53-136 | the store starts with exactly the payload's messages (empty without them), the icon is the type's, nothing has been fetched, and no continuation is awaiting |
| Channels.Channel.GetChannelMessages | src/stores/objects/Channel.ts:143-157 | the flag is set afterwards; a later call sends nothing and leaves `awaiting` as it was; the first sends the channel id and `RequestLimit(limit)` and leaves its continuation awaiting |
| Channels.Channel.ReceiveChannelMessages | src/stores/objects/Channel.ts:152-165 | runs only while a request is awaiting, and ends the wait, so each request sent is merged at most once; the store gains `NewMessages` of the store as it is at that moment, or nothing when the request is rejected |

## Left out

- Logging: the logger calls of the DELETE, UPDATE and unknown-op branches and of `getChannelMessages` change no state.
- MobX observability and `@action` batching are not modelled.
- The REST call in `getChannelMessages` is left out. Its result is a parameter: the fetched messages, or a rejection. The method returns the request it would send. The other parameter (the domain carrying the REST client) is not modelled.
- Concurrency is modelled only at the `await` of `getChannelMessages`: the method is split there, and any other change to the store may happen between the two halves. Since the flag is set before the `await`, a second call that starts before the first resolves behaves as the model's later call.
- Channel fields other than the id, the type, the icon, the message store and the flag are not modelled, and neither is `Date` parsing of `created_at`. Those fields are copied from the payload and never read by the modelled code.
- `Channel.update` is not modelled. It copies every key of the payload onto the channel. That overwrites `id` and `type` without recomputing `channelIcon`, and a payload carrying `messages` replaces the message store with a plain array. No modelled operation calls it, so the model keeps the id, the type and the store fixed after construction.
- The numeric values of the channel types live in the API types package, which is not part of this model. The types are named, and any other code is `Unlisted`.
- The message store and the presence store are not part of this model.
  - The message store is a list of messages: `addAll` appends and `has` tests for a message with that id.
  - The presence store is the list of presences it was given.
- GuildMembers.GuildMember.Update: only the eleven declared member fields are tracked. `Object.assign` also copies any other key the payload carries, such as `presence` and `index`.
- Case mapping is ASCII only; JavaScript's `toUpperCase` and `toLowerCase` are Unicode-aware. String comparison is by character, standing in for UTF-16 code units.
- MemberListPipeline.SortByName: the sort is an insertion sort driven by the source's comparator. JavaScript's engine may order members differently where the comparator is inconsistent:
  - members without a username compare as 0 with everyone;
  - equal lower-cased names compare as -1 both ways.

  Permutation is proved for every input, and non-decreasing order when every member has a username. No claim is made about the relative order of ties or of unnamed members.
- MemberListStore.GuildMemberListStore.ComputeListData: it does not state that the members placed in `list` are newly allocated objects. It states that each was constructed from the payload at its item position and still holds the fields the constructor set.
- Member and online counts are unbounded integers. The requested limit is an integer, so a `NaN` limit is not modelled.
- `new GuildMember` (src/stores/objects/GuildMember.ts:29-56) does not add the member to the guild's member table; the model's table never changes.
- The known-member `return` is modelled as written. It abandons the whole batch, and the push before it is lost; the model does not change it to `continue`.

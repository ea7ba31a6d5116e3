/** Channels (src/stores/objects/Channel.ts): the icon a channel's type
    selects, the messages a channel starts with, and the one fetch of its
    message history, merged without duplicating stored messages. */
module Channels {
  import opened JsValues

  /** The channel types the API declares, by name; any other code is `Unlisted`. */
  datatype ChannelType =
    | GuildText | DM | GuildVoice | GroupDM | GuildCategory | GuildAnnouncement
    | AnnouncementThread | PublicThread | PrivateThread | GuildStageVoice
    | GuildDirectory | GuildForum | GuildStore | Encrypted | EncryptedThread
    | Transactional | TicketTracker | KanBan | VoicelessWhiteboard
    | Unlisted(code: int)

  /** The types that share their icon with exactly one other type. */
  predicate SharedIcon(a: ChannelType, b: ChannelType) {
    || (a.GuildAnnouncement? && b.AnnouncementThread?)
    || (a.GuildStore? && b.Transactional?)
    || (a.Encrypted? && b.EncryptedThread?)
    || (a.PublicThread? && b.PrivateThread?)
  }

  /** The `switch` over the type in the constructor: the icon it sets, or
      nothing for a type the switch does not list. */
  function ChannelIcon(t: ChannelType): (r: Field<string>)
    ensures r.Absent? <==> t.DM? || t.GroupDM? || t.GuildCategory? || t.Unlisted?
    ensures r == Present("pound") <==> t.GuildText?
    ensures r == Present("volume-high") <==> t.GuildVoice?
    ensures r == Present("bullhorn-variant") <==> t.GuildAnnouncement? || t.AnnouncementThread?
    ensures r == Present("tag") <==> t.GuildStore? || t.Transactional?
    ensures r == Present("message-lock") <==> t.Encrypted? || t.EncryptedThread?
    ensures r == Present("comment-text-multiple") <==> t.PublicThread? || t.PrivateThread?
    ensures r == Present("broadcast") <==> t.GuildStageVoice?
    ensures r == Present("forum") <==> t.GuildForum?
    ensures r == Present("ticket-outline") <==> t.TicketTracker?
    ensures r == Present("developer-board") <==> t.KanBan?
    ensures r == Present("draw") <==> t.VoicelessWhiteboard?
    ensures r == Present("folder") <==> t.GuildDirectory?
  {
    match t
    case GuildText => Present("pound")
    case GuildVoice => Present("volume-high")
    case GuildAnnouncement | AnnouncementThread => Present("bullhorn-variant")
    case GuildStore | Transactional => Present("tag")
    case Encrypted | EncryptedThread => Present("message-lock")
    case PublicThread | PrivateThread => Present("comment-text-multiple")
    case GuildStageVoice => Present("broadcast")
    case GuildForum => Present("forum")
    case TicketTracker => Present("ticket-outline")
    case KanBan => Present("developer-board")
    case VoicelessWhiteboard => Present("draw")
    case GuildDirectory => Present("folder")
    case _ => Absent
  }

  /** Two different types show the same icon only when they are one of the
      four pairs the switch groups together. */
  lemma IconsDistinct(a: ChannelType, b: ChannelType)
    requires a != b && ChannelIcon(a).Present? && ChannelIcon(a) == ChannelIcon(b)
    ensures SharedIcon(a, b) || SharedIcon(b, a)
  {
    match a
    case GuildAnnouncement | AnnouncementThread =>
    case GuildStore | Transactional =>
    case Encrypted | EncryptedThread =>
    case PublicThread | PrivateThread =>
    case _ =>
  }

  // ------------------------------------------------------------ messages

  /** A message as the channel's store holds it; only its id is inspected. */
  datatype Message = Message(id: string, content: string)

  /** Some message of `ms` has this id (`MessageStore.has`). */
  predicate HasId(ms: seq<Message>, id: string) {
    exists i :: 0 <= i < |ms| && ms[i].id == id
  }

  /** The fetched messages whose id the store does not hold, in fetched order. */
  function Unseen(stored: seq<Message>, fetched: seq<Message>): (r: seq<Message>)
    ensures |r| <= |fetched|
  {
    if |fetched| == 0 then []
    else Unseen(stored, fetched[..|fetched| - 1])
         + (if HasId(stored, fetched[|fetched| - 1].id) then [] else [fetched[|fetched| - 1]])
  }

  function Reverse<T>(s: seq<T>): (r: seq<T>)
    ensures |r| == |s|
  {
    if |s| == 0 then [] else [s[|s| - 1]] + Reverse(s[..|s| - 1])
  }

  /** What the merge adds: the unseen fetched messages, last fetched first. */
  function NewMessages(stored: seq<Message>, fetched: seq<Message>): seq<Message> {
    Reverse(Unseen(stored, fetched))
  }

  lemma {:induction false} ReverseIndex<T>(s: seq<T>)
    ensures |Reverse(s)| == |s|
    ensures forall i :: 0 <= i < |s| ==> Reverse(s)[i] == s[|s| - 1 - i]
    decreases |s|
  {
    if |s| > 0 {
      var front := s[..|s| - 1];
      ReverseIndex(front);
      forall i | 0 <= i < |s| ensures Reverse(s)[i] == s[|s| - 1 - i] {
        if i > 0 {
          assert Reverse(s)[i] == Reverse(front)[i - 1];
        }
      }
    }
  }

  /** The filter keeps a fetched message exactly when its id is not stored. */
  lemma {:induction false} UnseenMembership(stored: seq<Message>, fetched: seq<Message>, m: Message)
    ensures m in Unseen(stored, fetched) <==> m in fetched && !HasId(stored, m.id)
    decreases |fetched|
  {
    if |fetched| > 0 {
      var front, last := fetched[..|fetched| - 1], fetched[|fetched| - 1];
      UnseenMembership(stored, front, m);
      assert fetched == front + [last];
    }
  }

  /** The filter of a concatenation is the concatenation of the filters. */
  lemma {:induction false} UnseenConcat(stored: seq<Message>, a: seq<Message>, b: seq<Message>)
    ensures Unseen(stored, a + b) == Unseen(stored, a) + Unseen(stored, b)
    decreases |b|
  {
    if |b| == 0 {
      assert a + b == a;
    } else {
      var front, last := b[..|b| - 1], b[|b| - 1];
      assert (a + b)[..|a + b| - 1] == a + front;
      assert (a + b)[|a + b| - 1] == last;
      UnseenConcat(stored, a, front);
    }
  }

  lemma {:induction false} ReverseConcat<T>(a: seq<T>, b: seq<T>)
    ensures Reverse(a + b) == Reverse(b) + Reverse(a)
  {
    ReverseIndex(a);
    ReverseIndex(b);
    ReverseIndex(a + b);
  }

  /** The merge adds exactly the fetched messages whose id is not stored. */
  lemma NewMessagesMembership(stored: seq<Message>, fetched: seq<Message>, m: Message)
    ensures m in NewMessages(stored, fetched) <==> m in fetched && !HasId(stored, m.id)
  {
    UnseenMembership(stored, fetched, m);
    var u := Unseen(stored, fetched);
    ReverseIndex(u);
    if m in u {
      var i :| 0 <= i < |u| && u[i] == m;
      assert Reverse(u)[|u| - 1 - i] == m;
    }
  }

  /** Order of the merge: of two fetched runs, the later one comes first and
      each is reversed in itself. */
  lemma NewMessagesConcat(stored: seq<Message>, a: seq<Message>, b: seq<Message>)
    ensures NewMessages(stored, a + b) == NewMessages(stored, b) + NewMessages(stored, a)
  {
    UnseenConcat(stored, a, b);
    ReverseConcat(Unseen(stored, a), Unseen(stored, b));
  }

  /** After the merge every fetched id is stored, so merging the same fetch
      again would add nothing; the messages stored before stay in front. */
  lemma MergeCovers(stored: seq<Message>, fetched: seq<Message>)
    ensures var after := stored + NewMessages(stored, fetched);
      && after[..|stored|] == stored
      && (forall m :: m in fetched ==> HasId(after, m.id))
      && NewMessages(after, fetched) == []
  {
    var added := NewMessages(stored, fetched);
    var after := stored + added;
    forall m | m in fetched ensures HasId(after, m.id) {
      if HasId(stored, m.id) {
        var i :| 0 <= i < |stored| && stored[i].id == m.id;
        assert after[i] == stored[i];
      } else {
        NewMessagesMembership(stored, fetched, m);
        var i :| 0 <= i < |added| && added[i] == m;
        assert after[|stored| + i] == m;
      }
    }
    if Unseen(after, fetched) != [] {
      var u := Unseen(after, fetched);
      UnseenMembership(after, fetched, u[0]);
      assert false;
    }
  }

  /** Only the store is consulted, not the fetch itself: a message fetched
      twice in one response is passed to `addAll` twice. */
  lemma RepeatedFetchedMessageAddedTwice(stored: seq<Message>, m: Message)
    requires !HasId(stored, m.id)
    ensures NewMessages(stored, [m, m]) == [m, m]
  {
    assert [m, m][..1] == [m] && [m][..0] == [];
    assert Unseen(stored, [m]) == [m];
    assert Unseen(stored, [m, m]) == [m, m];
    assert Reverse([m]) == [m];
  }

  /** The limit the request carries: an absent limit or 0 asks for 50
      messages, any other limit is sent as it is. */
  function RequestLimit(limit: Field<int>): (r: int)
    ensures r != 0
    ensures limit.Absent? || limit.value == 0 ==> r == 50
    ensures limit.Present? && limit.value != 0 ==> r == limit.value
  {
    if limit.Present? && limit.value != 0 then limit.value else 50
  }

  // ------------------------------------------------------------ stores

  /** The channel's message store, reduced to the list of messages it holds;
      `addAll` appends. */
  class MessageStore {
    var messages: seq<Message>

    constructor ()
      ensures messages == []
    {
      messages := [];
    }

    method AddAll(ms: seq<Message>)
      modifies this
      ensures messages == old(messages) + ms
    {
      messages := messages + ms;
    }
  }

  /** The fields of a channel payload the model reads. */
  datatype ChannelPayload = ChannelPayload(id: string, channelType: ChannelType, messages: Field<seq<Message>>)

  /** The REST request `getChannelMessages` sends: the channel's messages route and the limit. */
  datatype MessagesRequest = MessagesRequest(channel: string, limit: int)

  /** How the awaited request ends: with the fetched messages, or rejected. */
  datatype FetchResult = Fetched(messages: seq<Message>) | Rejected

  class Channel {
    const id: string
    const channelType: ChannelType
    const messages: MessageStore
    var channelIcon: Field<string>
    var hasFetchedMessages: bool
    /** A request has gone out and its continuation has not run yet. */
    ghost var awaiting: bool

    /** Starts with the payload's messages, if it carries any, and with the
        icon of its type. */
    constructor (channel: ChannelPayload)
      ensures id == channel.id && channelType == channel.channelType
      ensures fresh(messages)
      ensures messages.messages == (if channel.messages.Present? then channel.messages.value else [])
      ensures channelIcon == ChannelIcon(channel.channelType)
      ensures !hasFetchedMessages && !awaiting
    {
      id := channel.id;
      channelType := channel.channelType;
      var store := new MessageStore();
      messages := store;
      hasFetchedMessages := false;
      awaiting := false;
      new;
      if channel.messages.Present? {
        store.AddAll(channel.messages.value);
      }
      channelIcon := ChannelIcon(channelType);
    }

    /** The part of the history fetch that runs before the request's `await`.
        A call after the first returns at once and sends nothing. The first
        sets the flag before the request goes out, so it stays set when the
        request is rejected (nothing catches the rejection). Only the call
        that sends the request leaves a continuation awaiting it. */
    method GetChannelMessages(limit: Field<int>) returns (request: Option<MessagesRequest>)
      modifies this`hasFetchedMessages, this`awaiting
      ensures hasFetchedMessages
      ensures old(hasFetchedMessages) ==> request == None && awaiting == old(awaiting)
      ensures !old(hasFetchedMessages) ==> request == Some(MessagesRequest(id, RequestLimit(limit))) && awaiting
    {
      if hasFetchedMessages {
        return None;
      }
      hasFetchedMessages := true;
      awaiting := true;
      request := Some(MessagesRequest(id, RequestLimit(limit)));
    }

    /** The part that runs when the awaited request settles, against the
        store as it is then (other handlers may have added messages while
        the request was in flight). A fetch that arrives adds, by
        `NewMessages`, the fetched messages the store does not hold at that
        moment; a rejection adds nothing. It runs once per request sent. */
    method ReceiveChannelMessages(response: FetchResult)
      requires awaiting
      modifies messages, this`awaiting
      ensures !awaiting
      ensures messages.messages == old(messages.messages) +
        (if response.Fetched? then NewMessages(old(messages.messages), response.messages) else [])
    {
      if response.Fetched? {
        var added := NewMessages(messages.messages, response.messages);
        messages.AddAll(added);
      }
      awaiting := false;
    }
  }
}

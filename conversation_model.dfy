/**
 * The conversation collection and its two query pipelines: the lookup of a
 * conversation by its participants, and a user's inbox.
 */
module ConversationModel {
  import opened Common
  import opened Collections
  import opened MessageModel
  import opened UserModel

  datatype Conversation = Conversation(
    id: Id,
    participants: seq<Id>,
    createdAt: Timestamp,
    updatedAt: Option<Timestamp>,
    destroyed: bool)

  /** The record `createNew` inserts under `id`; the schema demands exactly two participants. */
  function NewConversation(participants: seq<Id>, id: Id, now: Timestamp): (r: Result<Conversation>)
    ensures r.Ok? <==> |participants| == 2
    ensures r.Err? ==> r.error == ApiError(InternalError, SchemaRejected)
    ensures r.Ok? ==> r.value.id == id && r.value.participants == participants
    ensures r.Ok? ==> r.value.createdAt == now && r.value.updatedAt == None && !r.value.destroyed
  {
    if |participants| == 2 then Ok(Conversation(id, participants, now, None, false))
    else Err(ApiError(InternalError, SchemaRejected))
  }

  /**
   * The `$all` match: every given id is a participant. MongoDB's `$all`
   * with an empty list matches no document.
   */
  predicate ContainsAll(c: Conversation, ids: seq<Id>) {
    |ids| > 0 && forall p :: p in ids ==> p in c.participants
  }

  /** `findByParticipants`: the first stored conversation that contains all `ids`, or null. */
  function FirstContainingAll(convs: seq<Conversation>, ids: seq<Id>): (r: Option<Conversation>)
    ensures r.Some? ==> r.value in convs && ContainsAll(r.value, ids)
    ensures r.None? <==> forall i :: 0 <= i < |convs| ==> !ContainsAll(convs[i], ids)
  {
    if convs == [] then None
    else if ContainsAll(convs[0], ids) then Some(convs[0])
    else FirstContainingAll(convs[1..], ids)
  }

  /** The match depends on the ids given, not on their order or repetition. */
  lemma {:induction false} FirstContainingAllIgnoresOrder(convs: seq<Conversation>, ids: seq<Id>, ids': seq<Id>)
    requires |ids| > 0 <==> |ids'| > 0
    requires forall p :: p in ids <==> p in ids'
    ensures FirstContainingAll(convs, ids) == FirstContainingAll(convs, ids')
  {
    if convs != [] {
      assert ContainsAll(convs[0], ids) == ContainsAll(convs[0], ids');
      FirstContainingAllIgnoresOrder(convs[1..], ids, ids');
    }
  }

  /** `findByParticipants([a, b])` and `findByParticipants([b, a])` agree. */
  lemma PairLookupIsSymmetric(convs: seq<Conversation>, a: Id, b: Id)
    ensures FirstContainingAll(convs, [a, b]) == FirstContainingAll(convs, [b, a])
  {
    FirstContainingAllIgnoresOrder(convs, [a, b], [b, a]);
  }

  /** A conversation appended after the store holds none for `ids` is the one found. */
  lemma {:induction false} FirstContainingAllAppend(convs: seq<Conversation>, c: Conversation, ids: seq<Id>)
    ensures FirstContainingAll(convs + [c], ids) ==
            if FirstContainingAll(convs, ids).Some? then FirstContainingAll(convs, ids)
            else if ContainsAll(c, ids) then Some(c) else None
  {
    if convs == [] {
      assert convs + [c] == [c];
    } else {
      assert (convs + [c])[1..] == convs[1..] + [c];
      FirstContainingAllAppend(convs[1..], c, ids);
    }
  }

  /** The public fields of the other participant that the inbox projects. */
  datatype UserCard = UserCard(id: Id, displayName: string, username: string, avatar: Option<string>)

  /** An inbox entry: the conversation, the other participant (empty when unknown) and its latest message. */
  datatype ConversationSummary = ConversationSummary(
    conversation: Conversation,
    otherParticipant: Option<UserCard>,
    lastMessage: Option<Message>)

  /**
   * The participant lookup joined on the user collection, filtered to ids
   * other than `u`, first element: users come in collection order.
   */
  function OtherParticipant(users: seq<User>, c: Conversation, u: Id): (r: Option<UserCard>)
    ensures r.Some? ==> r.value.id in c.participants && r.value.id != u
    ensures r.None? <==> forall i :: 0 <= i < |users| ==> users[i].id !in c.participants || users[i].id == u
  {
    if users == [] then None
    else if users[0].id in c.participants && users[0].id != u then
      Some(UserCard(users[0].id, users[0].displayName, users[0].username, users[0].avatar))
    else OtherParticipant(users[1..], c, u)
  }

  /** The message lookup sorted by `createdAt` descending with limit 1. */
  function LastMessage(msgs: seq<Message>, c: Id): (r: Option<Message>)
    ensures r.None? <==> forall i :: 0 <= i < |msgs| ==> msgs[i].conversationId != c
    ensures r.Some? ==> r.value in msgs && r.value.conversationId == c
    ensures r.Some? ==> forall i :: 0 <= i < |msgs| && msgs[i].conversationId == c ==>
                          msgs[i].createdAt <= r.value.createdAt
  {
    var mine := MessagesOf(msgs, c);
    if mine == [] then None
    else
      LastIsLatest(msgs, c, mine);
      Some(mine[|mine| - 1])
  }

  /** The last of a conversation's messages in time order is none older than any of them. */
  lemma LastIsLatest(msgs: seq<Message>, c: Id, mine: seq<Message>)
    requires mine != []
    requires forall i :: 0 <= i < |msgs| && msgs[i].conversationId == c ==> msgs[i] in mine
    requires forall a, b :: 0 <= a < b < |mine| ==> mine[a].createdAt <= mine[b].createdAt
    ensures forall i :: 0 <= i < |msgs| && msgs[i].conversationId == c ==>
              msgs[i].createdAt <= mine[|mine| - 1].createdAt
  {
    forall i | 0 <= i < |msgs| && msgs[i].conversationId == c
      ensures msgs[i].createdAt <= mine[|mine| - 1].createdAt
    {
      assert msgs[i] in mine;
      var k :| 0 <= k < |mine| && mine[k] == msgs[i];
      if k < |mine| - 1 {
        assert mine[k].createdAt <= mine[|mine| - 1].createdAt;
      }
    }
  }

  function Summarize(msgs: seq<Message>, users: seq<User>, u: Id, c: Conversation): ConversationSummary {
    ConversationSummary(c, OtherParticipant(users, c, u), LastMessage(msgs, c.id))
  }

  /** Ascending in this key is descending in the latest message's time, with silent conversations last. */
  function Recency(s: ConversationSummary): int {
    if s.lastMessage.Some? then -(s.lastMessage.value.createdAt as int) else 1
  }

  /** The conversations `u` takes part in, in stored order. */
  function Involving(convs: seq<Conversation>, u: Id): (r: seq<Conversation>)
    ensures forall i :: 0 <= i < |r| ==> r[i] in convs && u in r[i].participants
    ensures forall i :: 0 <= i < |convs| && u in convs[i].participants ==> convs[i] in r
  {
    if convs == [] then []
    else if u in convs[0].participants then [convs[0]] + Involving(convs[1..], u)
    else Involving(convs[1..], u)
  }

  /** A conversation appended last comes last in the match if `u` takes part in it, and nowhere otherwise. */
  lemma {:induction false} InvolvingAppend(convs: seq<Conversation>, c: Conversation, u: Id)
    ensures Involving(convs + [c], u) == Involving(convs, u) + (if u in c.participants then [c] else [])
  {
    if convs == [] {
      assert convs + [c] == [c];
    } else {
      assert (convs + [c])[1..] == convs[1..] + [c];
      InvolvingAppend(convs[1..], c, u);
    }
  }

  /** `findByParticipantId`: `u`'s inbox, most recently active conversation first. */
  function FindByParticipantId(convs: seq<Conversation>, msgs: seq<Message>, users: seq<User>, u: Id)
    : (r: seq<ConversationSummary>)
    ensures |r| == |Involving(convs, u)|
    ensures forall i, j :: 0 <= i < j < |r| ==> Recency(r[i]) <= Recency(r[j])
  {
    var mine := Involving(convs, u);
    SortBy(seq(|mine|, i requires 0 <= i < |mine| => Summarize(msgs, users, u, mine[i])), Recency)
  }

  /** Every inbox entry is one of `u`'s conversations, described from `u`'s side. */
  lemma {:induction false} InboxEntriesBelongToUser(convs: seq<Conversation>, msgs: seq<Message>, users: seq<User>, u: Id)
    ensures forall e :: e in FindByParticipantId(convs, msgs, users, u) ==>
              && e.conversation in convs
              && u in e.conversation.participants
              && (e.otherParticipant.Some? ==>
                    e.otherParticipant.value.id in e.conversation.participants &&
                    e.otherParticipant.value.id != u)
              && e.otherParticipant == OtherParticipant(users, e.conversation, u)
              && e.lastMessage == LastMessage(msgs, e.conversation.id)
  {
    var mine := Involving(convs, u);
    var entries := seq(|mine|, i requires 0 <= i < |mine| => Summarize(msgs, users, u, mine[i]));
    var r := SortBy(entries, Recency);
    SameElements(r, entries);
    forall e | e in r
      ensures e.conversation in convs && u in e.conversation.participants
      ensures e.otherParticipant.Some? ==>
                e.otherParticipant.value.id in e.conversation.participants &&
                e.otherParticipant.value.id != u
      ensures e.otherParticipant == OtherParticipant(users, e.conversation, u)
      ensures e.lastMessage == LastMessage(msgs, e.conversation.id)
    {
      var k :| 0 <= k < |r| && r[k] == e;
      var j :| 0 <= j < |entries| && entries[j] == e;
      assert e == Summarize(msgs, users, u, mine[j]);
    }
  }

  /** Every conversation `u` takes part in has an inbox entry. */
  lemma {:induction false} InboxIsComplete(convs: seq<Conversation>, msgs: seq<Message>, users: seq<User>, u: Id, c: Conversation)
    requires c in convs && u in c.participants
    ensures exists e :: e in FindByParticipantId(convs, msgs, users, u) && e.conversation == c
  {
    var mine := Involving(convs, u);
    var entries := seq(|mine|, i requires 0 <= i < |mine| => Summarize(msgs, users, u, mine[i]));
    var r := SortBy(entries, Recency);
    var k :| 0 <= k < |convs| && convs[k] == c;
    var j :| 0 <= j < |mine| && mine[j] == c;
    assert entries[j] in multiset(entries);
    assert entries[j] in r;
  }

  /** Entries come by descending time of their latest message; silent conversations come last. */
  lemma {:induction false} InboxIsNewestFirst(convs: seq<Conversation>, msgs: seq<Message>, users: seq<User>, u: Id)
    ensures var r := FindByParticipantId(convs, msgs, users, u);
      forall i, j :: 0 <= i < j < |r| ==>
        (r[i].lastMessage.None? ==> r[j].lastMessage.None?) &&
        (r[j].lastMessage.Some? ==> r[j].lastMessage.value.createdAt <= r[i].lastMessage.value.createdAt)
  {
    var r := FindByParticipantId(convs, msgs, users, u);
    forall i, j | 0 <= i < j < |r|
      ensures r[i].lastMessage.None? ==> r[j].lastMessage.None?
      ensures r[j].lastMessage.Some? ==> r[j].lastMessage.value.createdAt <= r[i].lastMessage.value.createdAt
    {
      assert Recency(r[i]) <= Recency(r[j]);
    }
  }

  /** Ids are insertion positions, and the schema let only two-person conversations in. */
  ghost predicate WellFormed(convs: seq<Conversation>) {
    forall i :: 0 <= i < |convs| ==> convs[i].id == i && |convs[i].participants| == 2
  }

  class ConversationStore {
    var conversations: seq<Conversation>

    ghost predicate Valid()
      reads this
    {
      WellFormed(conversations)
    }

    constructor ()
      ensures Valid() && conversations == []
    {
      conversations := [];
    }

    method CreateNew(participants: seq<Id>, now: Timestamp) returns (r: Result<Id>)
      requires Valid()
      modifies this
      ensures Valid()
      ensures |participants| == 2 ==>
                r == Ok(|old(conversations)|) &&
                conversations == old(conversations) + [Conversation(r.value, participants, now, None, false)]
      ensures |participants| != 2 ==>
                r == Err(ApiError(InternalError, SchemaRejected)) && conversations == old(conversations)
    {
      var c := NewConversation(participants, |conversations|, now);
      if c.Ok? {
        conversations := conversations + [c.value];
        r := Ok(c.value.id);
      } else {
        r := Err(c.error);
      }
    }

    function FindOneById(id: Id): (r: Option<Conversation>)
      reads this
      requires Valid()
      ensures r.Some? <==> id < |conversations|
      ensures r.Some? ==> r.value == conversations[id] && r.value.id == id
    {
      if id < |conversations| then Some(conversations[id]) else None
    }

    function FindByParticipants(ids: seq<Id>): (r: Option<Conversation>)
      reads this
      ensures r.Some? ==> r.value in conversations && ContainsAll(r.value, ids)
      ensures r.None? <==> forall i :: 0 <= i < |conversations| ==> !ContainsAll(conversations[i], ids)
    {
      FirstContainingAll(conversations, ids)
    }
  }
}

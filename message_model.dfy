/** The message collection: an append-only log of chat messages. */
module MessageModel {
  import opened Common
  import opened Collections

  datatype Message = Message(
    id: Id,
    conversationId: Id,
    senderId: Id,
    receiverId: Id,
    text: string,                // stored under the key `message`
    isRead: bool,
    createdAt: Timestamp,
    updatedAt: Option<Timestamp>,
    destroyed: bool)

  /** The document a caller passes to `createNew`; a missing key is None. */
  datatype MessageInput = MessageInput(
    conversationId: Option<Id>,
    senderId: Option<Id>,
    receiverId: Option<Id>,
    text: Option<string>)

  /** The message schema: three required identifiers and a required, strictly trimmed text. */
  predicate SchemaAccepts(input: MessageInput) {
    && input.conversationId.Some?
    && input.senderId.Some?
    && input.receiverId.Some?
    && input.text.Some? && IsTrimmedText(input.text.value)
  }

  /** The record `createNew` inserts under `id`, or the schema's refusal. */
  function NewMessage(input: MessageInput, id: Id, now: Timestamp): (r: Result<Message>)
    ensures r.Ok? <==> SchemaAccepts(input)
    ensures r.Err? ==> r.error == ApiError(InternalError, SchemaRejected)
    ensures r.Ok? ==> && r.value.id == id
                      && Some(r.value.conversationId) == input.conversationId
                      && Some(r.value.senderId) == input.senderId
                      && Some(r.value.receiverId) == input.receiverId
                      && Some(r.value.text) == input.text && r.value.text != ""
    ensures r.Ok? ==> !r.value.isRead && !r.value.destroyed
    ensures r.Ok? ==> r.value.createdAt == now && r.value.updatedAt == None
  {
    if SchemaAccepts(input) then
      Ok(Message(id, input.conversationId.value, input.senderId.value, input.receiverId.value,
                 input.text.value, false, now, None, false))
    else
      Err(ApiError(InternalError, SchemaRejected))
  }

  function CreatedAt(m: Message): int {
    m.createdAt
  }

  /** The messages of conversation `c`, in stored order. */
  function InConversation(msgs: seq<Message>, c: Id): (r: seq<Message>)
    ensures |r| <= |msgs|
    ensures forall i :: 0 <= i < |r| ==> r[i] in msgs && r[i].conversationId == c
    ensures forall i :: 0 <= i < |msgs| && msgs[i].conversationId == c ==> msgs[i] in r
  {
    if msgs == [] then []
    else if msgs[0].conversationId == c then [msgs[0]] + InConversation(msgs[1..], c)
    else InConversation(msgs[1..], c)
  }

  lemma {:induction false} InConversationAppend(msgs: seq<Message>, m: Message, c: Id)
    ensures InConversation(msgs + [m], c) ==
            InConversation(msgs, c) + (if m.conversationId == c then [m] else [])
  {
    if msgs == [] {
      assert msgs + [m] == [m];
    } else {
      assert (msgs + [m])[1..] == msgs[1..] + [m];
      InConversationAppend(msgs[1..], m, c);
    }
  }

  /** `findByConversationId`: the conversation's messages, sorted by `createdAt` ascending. */
  function MessagesOf(msgs: seq<Message>, c: Id): (r: seq<Message>)
    ensures multiset(r) == multiset(InConversation(msgs, c))
    ensures forall i :: 0 <= i < |r| ==> r[i] in msgs && r[i].conversationId == c
    ensures forall i :: 0 <= i < |msgs| && msgs[i].conversationId == c ==> msgs[i] in r
    ensures forall i, j :: 0 <= i < j < |r| ==> r[i].createdAt <= r[j].createdAt
  {
    var mine := InConversation(msgs, c);
    var r := SortBy(mine, CreatedAt);
    SameElements(r, mine);
    SameElements(mine, r);
    r
  }

  /** Appending a message leaves every other conversation's listing as it was. */
  lemma {:induction false} AppendKeepsOtherConversations(msgs: seq<Message>, m: Message, c: Id)
    requires m.conversationId != c
    ensures MessagesOf(msgs + [m], c) == MessagesOf(msgs, c)
  {
    InConversationAppend(msgs, m, c);
    assert InConversation(msgs + [m], c) == InConversation(msgs, c);
  }

  /** An appended message is listed in its own conversation. */
  lemma {:induction false} AppendIsListed(msgs: seq<Message>, m: Message)
    ensures m in MessagesOf(msgs + [m], m.conversationId)
  {
    assert (msgs + [m])[|msgs|] == m;
  }

  class MessageStore {
    var messages: seq<Message>

    ghost predicate Valid()
      reads this
    {
      forall i :: 0 <= i < |messages| ==> messages[i].id == i
    }

    constructor ()
      ensures Valid() && messages == []
    {
      messages := [];
    }

    /** Inserts a message; the only write this store offers, and it never touches stored ones. */
    method CreateNew(input: MessageInput, now: Timestamp) returns (r: Result<Id>)
      requires Valid()
      modifies this
      ensures Valid()
      ensures |old(messages)| <= |messages| && messages[..|old(messages)|] == old(messages)
      ensures NewMessage(input, |old(messages)|, now).Ok? ==>
                r == Ok(|old(messages)|) &&
                messages == old(messages) + [NewMessage(input, |old(messages)|, now).value]
      ensures NewMessage(input, |old(messages)|, now).Err? ==>
                r == Err(NewMessage(input, |old(messages)|, now).error) && messages == old(messages)
    {
      var m := NewMessage(input, |messages|, now);
      if m.Ok? {
        messages := messages + [m.value];
        r := Ok(m.value.id);
      } else {
        r := Err(m.error);
      }
    }

    /** The stored messages of conversation `c`, each once, oldest first. */
    function FindByConversationId(c: Id): (r: seq<Message>)
      reads this
      ensures multiset(r) == multiset(InConversation(messages, c))
      ensures forall i :: 0 <= i < |r| ==> r[i] in messages && r[i].conversationId == c
      ensures forall i, j :: 0 <= i < j < |r| ==> r[i].createdAt <= r[j].createdAt
    {
      MessagesOf(messages, c)
    }
  }
}

/**
 * The chat endpoints: send a message (opening the conversation on first
 * contact), read a conversation with another user, list one's inbox, and
 * find or open a conversation without sending.
 */
module MessageController {
  import opened Common
  import opened UserModel
  import opened MessageModel
  import opened ConversationModel

  /** The conversation to use for a pair, and the conversation collection afterwards. */
  datatype Resolved = Resolved(id: Id, conversations: seq<Conversation>)

  /**
   * The find-or-create step both `sendMessage` and `findOrCreateConversation`
   * perform: the first conversation holding both users, or a new one for
   * `[a, b]` appended to the collection.
   */
  function Resolve(convs: seq<Conversation>, a: Id, b: Id, now: Timestamp): (r: Resolved)
    requires WellFormed(convs)
    ensures WellFormed(r.conversations)
    ensures r.id < |r.conversations| && ContainsAll(r.conversations[r.id], [a, b])
    ensures FirstContainingAll(convs, [a, b]).Some? ==>
              r.conversations == convs && Some(convs[r.id]) == FirstContainingAll(convs, [a, b])
    ensures FirstContainingAll(convs, [a, b]).None? ==>
              r.id == |convs| && r.conversations == convs + [Conversation(r.id, [a, b], now, None, false)]
  {
    var found := FirstContainingAll(convs, [a, b]);
    if found.Some? then
      assert found.value == convs[found.value.id];
      Resolved(found.value.id, convs)
    else
      Resolved(|convs|, convs + [Conversation(|convs|, [a, b], now, None, false)])
  }

  /**
   * Resolving the same pair again, in either order and at any later time,
   * finds the conversation the first call settled on and writes nothing.
   */
  lemma {:induction false} ResolveIsIdempotent(convs: seq<Conversation>, a: Id, b: Id, t1: Timestamp, t2: Timestamp)
    requires WellFormed(convs)
    ensures Resolve(Resolve(convs, a, b, t1).conversations, b, a, t2) == Resolve(convs, a, b, t1)
  {
    var r1 := Resolve(convs, a, b, t1);
    PairLookupIsSymmetric(r1.conversations, a, b);
    if FirstContainingAll(convs, [a, b]).None? {
      FirstContainingAllAppend(convs, r1.conversations[r1.id], [a, b]);
    }
  }

  /** No conversation between two different users is followed by a second one holding both. */
  ghost predicate OneConversationPerPair(convs: seq<Conversation>)
    requires WellFormed(convs)
  {
    forall i, j :: 0 <= i < j < |convs| && convs[i].participants[0] != convs[i].participants[1] ==>
      !ContainsAll(convs[j], convs[i].participants)
  }

  /** A conversation of `[a, b]` holding both members of a two-person conversation `d` means `d` holds `a` and `b`. */
  lemma CoversPair(c: Conversation, d: Conversation, a: Id, b: Id)
    requires c.participants == [a, b]
    requires |d.participants| == 2 && d.participants[0] != d.participants[1]
    ensures ContainsAll(c, d.participants) ==> ContainsAll(d, [a, b])
  {
    if ContainsAll(c, d.participants) {
      assert d.participants[0] in [a, b] && d.participants[1] in [a, b];
      assert a in d.participants && b in d.participants;
    }
  }

  /** Conversations opened only through `Resolve` never duplicate a pair. */
  lemma ResolveKeepsOneConversationPerPair(convs: seq<Conversation>, a: Id, b: Id, now: Timestamp)
    requires WellFormed(convs) && OneConversationPerPair(convs)
    ensures OneConversationPerPair(Resolve(convs, a, b, now).conversations)
  {
    var r := Resolve(convs, a, b, now);
    if FirstContainingAll(convs, [a, b]).None? {
      var c := r.conversations[r.id];
      forall i | 0 <= i < |convs| && convs[i].participants[0] != convs[i].participants[1]
        ensures !ContainsAll(c, convs[i].participants)
      {
        CoversPair(c, convs[i], a, b);
      }
    }
  }

  /** Under that invariant two different users share at most one conversation. */
  lemma AtMostOneConversationPerPair(convs: seq<Conversation>, a: Id, b: Id, i: nat, j: nat)
    requires WellFormed(convs) && OneConversationPerPair(convs) && a != b
    requires i < j < |convs| && ContainsAll(convs[i], [a, b])
    ensures !ContainsAll(convs[j], [a, b])
  {
    assert a in convs[i].participants && b in convs[i].participants;
    if ContainsAll(convs[j], [a, b]) {
      assert ContainsAll(convs[j], convs[i].participants);
    }
  }

  /** The receiver that a request names, after the checks both endpoints make before any write. */
  function ReceiverOf(users: seq<User>, receiverId: IdArg, missing: Reason): (r: Result<Id>)
    ensures receiverId.Falsy() ==> r == Err(ApiError(BadRequest, missing))
    ensures receiverId.Malformed? ==> r == Internal(InvalidIdentifier)
    ensures receiverId.Parsed? && receiverId.id >= |users| ==> r == Err(ApiError(NotFound, ReceiverNotFound))
    ensures r.Ok? <==> receiverId.Parsed? && receiverId.id < |users|
    ensures r.Ok? ==> r.value == receiverId.id
  {
    match receiverId
    case Absent | Empty => Err(ApiError(BadRequest, missing))
    case Malformed => Internal(InvalidIdentifier)
    case Parsed(id) => if id < |users| then Ok(id) else Err(ApiError(NotFound, ReceiverNotFound))
  }

  /** `sendMessage`'s guards: a missing receiver or empty text is refused before the lookup. */
  function SendPrecheck(users: seq<User>, receiverId: IdArg, text: string): (r: Result<Id>)
    ensures (receiverId.Falsy() || text == "") ==> r == Err(ApiError(BadRequest, MessageFieldsRequired))
    ensures r.Ok? <==> text != "" && receiverId.Parsed? && receiverId.id < |users|
  {
    if text == "" then Err(ApiError(BadRequest, MessageFieldsRequired))
    else ReceiverOf(users, receiverId, MessageFieldsRequired)
  }

  /** The conversation step on the stores: look up the pair, open a conversation if there is none. */
  method FindOrOpen(convs: ConversationStore, a: Id, b: Id, now: Timestamp) returns (id: Id)
    requires convs.Valid()
    modifies convs
    ensures convs.Valid()
    ensures Resolve(old(convs.conversations), a, b, now) == Resolved(id, convs.conversations)
  {
    var found := convs.FindByParticipants([a, b]);
    if found.Some? {
      assert found.value == convs.conversations[found.value.id];
      id := found.value.id;
    } else {
      var created := convs.CreateNew([a, b], now);
      id := created.value;
    }
  }

  /** The message that `sendMessage` stores for a sender, receiver and text, once the guards pass. */
  function Outgoing(conversation: Id, sender: Id, receiver: Id, text: string): MessageInput {
    MessageInput(Some(conversation), Some(sender), Some(receiver), Some(text))
  }

  /**
   * Everything `sendMessage` writes: after the guards, the conversation is
   * found or opened, then the message is inserted (the schema can still
   * refuse text with surrounding blanks, after the conversation exists).
   */
  method Deliver(users: UserStore, convs: ConversationStore, msgs: MessageStore,
                 sender: Id, receiverId: IdArg, text: string, now: Timestamp) returns (r: Result<Message>)
    requires convs.Valid() && msgs.Valid()
    modifies convs, msgs
    ensures convs.Valid() && msgs.Valid()
    ensures var pre := SendPrecheck(users.users, receiverId, text);
      && (pre.Err? ==>
            && r == Err(pre.error)
            && convs.conversations == old(convs.conversations)
            && msgs.messages == old(msgs.messages))
      && (pre.Ok? ==>
            var res := Resolve(old(convs.conversations), sender, pre.value, now);
            var m := NewMessage(Outgoing(res.id, sender, pre.value, text), |old(msgs.messages)|, now);
            && convs.conversations == res.conversations
            && (m.Ok? ==> r == m && msgs.messages == old(msgs.messages) + [m.value])
            && (m.Err? ==> r == Err(m.error) && msgs.messages == old(msgs.messages)))
    ensures r.Ok? ==> && r.value.conversationId < |convs.conversations|
                      && ContainsAll(convs.conversations[r.value.conversationId], [sender, r.value.receiverId])
  {
    var pre := SendPrecheck(users.users, receiverId, text);
    if pre.Err? {
      return Err(pre.error);
    }
    var cid := FindOrOpen(convs, sender, pre.value, now);
    var created := msgs.CreateNew(Outgoing(cid, sender, pre.value, text), now);
    if created.Err? {
      return Err(created.error);
    }
    r := Ok(msgs.messages[created.value]);
  }

  /**
   * `sendMessage` as written: after the writes it asks the message model for
   * `findOneById`, which that model does not export, so every request that
   * stores a message is answered with a 500.
   */
  method SendMessageAsWritten(users: UserStore, convs: ConversationStore, msgs: MessageStore,
                              sender: Id, receiverId: IdArg, text: string, now: Timestamp)
    returns (r: Result<Message>)
    requires convs.Valid() && msgs.Valid()
    modifies convs, msgs
    ensures convs.Valid() && msgs.Valid()
    ensures var pre := SendPrecheck(users.users, receiverId, text);
      && (pre.Err? ==>
            && r == Err(pre.error)
            && convs.conversations == old(convs.conversations)
            && msgs.messages == old(msgs.messages))
      && (pre.Ok? ==>
            var res := Resolve(old(convs.conversations), sender, pre.value, now);
            var m := NewMessage(Outgoing(res.id, sender, pre.value, text), |old(msgs.messages)|, now);
            && convs.conversations == res.conversations
            && (m.Ok? ==> r == Internal(MessageLookupMissing) && msgs.messages == old(msgs.messages) + [m.value])
            && (m.Err? ==> r == Err(m.error) && msgs.messages == old(msgs.messages)))
    ensures r == Internal(MessageLookupMissing) <==> |msgs.messages| == |old(msgs.messages)| + 1
    ensures r.Err?
  {
    r := Deliver(users, convs, msgs, sender, receiverId, text, now);
    if r.Ok? {
      r := Internal(MessageLookupMissing);
    }
  }

  /** `sendMessage` answering with the stored message, as its closing lines intend. */
  method SendMessage(users: UserStore, convs: ConversationStore, msgs: MessageStore,
                     sender: Id, receiverId: IdArg, text: string, now: Timestamp) returns (r: Result<Message>)
    requires convs.Valid() && msgs.Valid()
    modifies convs, msgs
    ensures convs.Valid() && msgs.Valid()
    ensures r.Ok? <==> |msgs.messages| > |old(msgs.messages)|
    ensures r.Ok? ==> msgs.messages == old(msgs.messages) + [r.value]
    ensures r.Ok? ==> && r.value.senderId == sender && r.value.text == text && !r.value.isRead
                      && r.value.conversationId < |convs.conversations|
                      && ContainsAll(convs.conversations[r.value.conversationId], [sender, r.value.receiverId])
  {
    r := Deliver(users, convs, msgs, sender, receiverId, text, now);
  }

  /** `getMessages`: the conversation between the caller and another user, oldest first. */
  function GetMessages(users: seq<User>, convs: seq<Conversation>, msgs: seq<Message>, u: Id, other: IdArg)
    : (r: Result<seq<Message>>)
    ensures other.Unparsable() ==> r == Internal(InvalidIdentifier)
    ensures (other.Absent? || (other.Parsed? && other.id >= |users|)) ==> r == Err(ApiError(NotFound, OtherUserNotFound))
    ensures r.Ok? <==> other.Parsed? && other.id < |users|
    ensures r.Ok? && FirstContainingAll(convs, [u, other.id]).None? ==> r.value == []
    ensures r.Ok? && FirstContainingAll(convs, [u, other.id]).Some? ==>
              r.value == MessagesOf(msgs, FirstContainingAll(convs, [u, other.id]).value.id)
    ensures r.Ok? ==> forall i :: 0 <= i < |r.value| ==> r.value[i] in msgs
  {
    match other
    case Malformed | Empty => Internal(InvalidIdentifier)
    case Absent => Err(ApiError(NotFound, OtherUserNotFound))
    case Parsed(o) =>
      if o >= |users| then Err(ApiError(NotFound, OtherUserNotFound))
      else
        var c := FirstContainingAll(convs, [u, o]);
        if c.None? then Ok([]) else Ok(MessagesOf(msgs, c.value.id))
  }

  /**
   * A message sent from `a` to `b` is then in the history `b` reads with
   * `a`: the lookup from `b`'s side lands on the same conversation.
   */
  lemma SentMessageIsReadBack(users: seq<User>, convs: seq<Conversation>, msgs: seq<Message>,
                              a: Id, b: Id, text: string, now: Timestamp)
    requires WellFormed(convs) && a < |users| && b < |users| && IsTrimmedText(text)
    ensures var res := Resolve(convs, a, b, now);
      var m := NewMessage(Outgoing(res.id, a, b, text), |msgs|, now).value;
      && NewMessage(Outgoing(res.id, a, b, text), |msgs|, now).Ok?
      && GetMessages(users, res.conversations, msgs + [m], b, Parsed(a)).Ok?
      && m in GetMessages(users, res.conversations, msgs + [m], b, Parsed(a)).value
  {
    var res := Resolve(convs, a, b, now);
    var m := NewMessage(Outgoing(res.id, a, b, text), |msgs|, now).value;
    ResolveIsIdempotent(convs, a, b, now, now);
    PairLookupIsSymmetric(res.conversations, a, b);
    assert FirstContainingAll(res.conversations, [b, a]) == Some(res.conversations[res.id]);
    AppendIsListed(msgs, m);
  }

  /** `findOrCreateConversation`: the conversation between the caller and the receiver, opened if need be. */
  method FindOrCreateConversation(users: UserStore, convs: ConversationStore, sender: Id, receiverId: IdArg, now: Timestamp)
    returns (r: Result<Conversation>)
    requires convs.Valid()
    modifies convs
    ensures convs.Valid()
    ensures var pre := ReceiverOf(users.users, receiverId, ReceiverRequired);
      && (pre.Err? ==> r == Err(pre.error) && convs.conversations == old(convs.conversations))
      && (pre.Ok? ==>
            var res := Resolve(old(convs.conversations), sender, pre.value, now);
            convs.conversations == res.conversations && r == Ok(res.conversations[res.id]))
  {
    var pre := ReceiverOf(users.users, receiverId, ReceiverRequired);
    if pre.Err? {
      return Err(pre.error);
    }
    var cid := FindOrOpen(convs, sender, pre.value, now);
    r := Ok(convs.conversations[cid]);
  }
}

/** The chat REST handlers of `backend/controllers/chatController.js` over
    the message collection, kept in insertion order. */
module ChatController {
  import opened Common
  import opened UserModel
  import opened MessageModel

  const MessageNotFound := "Message not found"
  const SendFailed := "Error sending message"

  /** `sendMessage`: stores one unread message with the given sender,
      receiver and content, and nothing else (201). The handler passes no
      `messageType` or `imageUrl`. `newId` is the id Mongo assigns and
      `saved` whether `save()` succeeds; when it fails the store is unchanged
      and the reply is 500. */
  function SendMessage(messages: seq<Message>, sender: Id, receiver: Option<Id>, content: string,
                       newId: Id, saved: bool)
    : (r: (Response<Message>, seq<Message>))
    ensures r.0.Ok? <==> saved
    ensures !saved ==> r == (Error(500, SendFailed), messages)
    ensures saved ==>
              && r.0.status == 201
              && r.1 == messages + [r.0.body]
              && r.0.body.id == newId && r.0.body.sender == sender && r.0.body.receiver == receiver
              && r.0.body.content == content && !r.0.body.read
              && r.0.body.messageType.None? && r.0.body.imageUrl.None?
  {
    if !saved then (Error(500, SendFailed), messages)
    else
      var m := Message(newId, sender, receiver, content, None, None, false);
      (Ok(201, m), messages + [m])
  }

  /** `m` went from `a` to `b`. */
  predicate From(m: Message, a: Id, b: Id)
  {
    m.sender == a && m.receiver == Some(b)
  }

  /** `getMessages`: the `$or` of the two directions, in store order. */
  function GetMessages(messages: seq<Message>, a: Id, b: Id): (r: seq<Message>)
    ensures forall m :: m in r <==> m in messages && (From(m, a, b) || From(m, b, a))
    ensures forall m :: m in r ==> m.receiver.Some?
    ensures IsSubseq(r, messages)
  {
    Filter(messages, (m: Message) => From(m, a, b) || From(m, b, a))
  }

  /** The conversation is the same list whichever user asks. */
  lemma GetMessagesSymmetric(messages: seq<Message>, a: Id, b: Id)
    ensures GetMessages(messages, a, b) == GetMessages(messages, b, a)
  {
    FilterCongruent(messages, (m: Message) => From(m, a, b) || From(m, b, a),
                              (m: Message) => From(m, b, a) || From(m, a, b));
  }

  /** A message involving a third user, or without a receiver, is never part
      of the conversation between `a` and `b`. */
  lemma GetMessagesExcludesOthers(messages: seq<Message>, a: Id, b: Id, m: Message)
    requires m.receiver.None? || (m.sender != a && m.sender != b) ||
             (m.receiver.Some? && m.receiver.value != a && m.receiver.value != b)
    ensures m !in GetMessages(messages, a, b)
  {
  }

  /** A message sent over REST shows up in the conversation of its sender
      and receiver, after everything stored before it. */
  lemma SentMessageListed(messages: seq<Message>, a: Id, b: Id, content: string, newId: Id)
    ensures var r := SendMessage(messages, a, Some(b), content, newId, true);
            GetMessages(r.1, a, b) == GetMessages(messages, a, b) + [r.0.body]
  {
    var r := SendMessage(messages, a, Some(b), content, newId, true);
    FilterAppend(messages, [r.0.body], (m: Message) => From(m, a, b) || From(m, b, a));
  }

  /** `markAsRead`: `findByIdAndUpdate` sets `read` on that message only, or
      answers 404 and changes nothing. */
  function MarkAsRead(messages: seq<Message>, id: Id): (r: (Response<Message>, seq<Message>))
    ensures r.0.Error? <==> IndexOfMessage(messages, id).None?
    ensures r.0.Error? ==> r == (Error(404, MessageNotFound), messages)
    ensures r.0.Ok? ==>
              var k := IndexOfMessage(messages, id).value;
              && r.0 == Ok(200, messages[k].(read := true))
              && |r.1| == |messages|
              && r.1[k].read
              && r.1[k] == messages[k].(read := r.1[k].read)
              && forall i :: 0 <= i < |messages| && i != k ==> r.1[i] == messages[i]
  {
    match IndexOfMessage(messages, id)
    case None => (Error(404, MessageNotFound), messages)
    case Some(k) =>
      var updated := messages[k].(read := true);
      (Ok(200, updated), messages[k := updated])
  }

  /** Marking a message read twice leaves the store as marking it once. */
  lemma MarkAsReadIdempotent(messages: seq<Message>, id: Id)
    ensures MarkAsRead(MarkAsRead(messages, id).1, id).1 == MarkAsRead(messages, id).1
  {
    var once := MarkAsRead(messages, id).1;
    if IndexOfMessage(messages, id).Some? {
      var k := IndexOfMessage(messages, id).value;
      assert once[k].id == id;
      assert IndexOfMessage(once, id) == Some(k);
      assert once[k := once[k].(read := true)] == once;
    }
  }
}

/** The message document both send paths store: the REST handler of
    `backend/controllers/chatController.js` and the socket relay of
    `backend/server.js`. The message model file is not part of this model;
    `read` starting out `false` is taken from how the code uses it. */
module MessageModel {
  import opened Common
  import opened UserModel

  /** `receiver` is absent on messages the relay stores; `messageType` is
      absent where the storing code leaves it to the schema default. */
  datatype Message = Message(
    id: Id,
    sender: Id,
    receiver: Option<Id>,
    content: string,
    messageType: Option<string>,
    imageUrl: Option<string>,
    read: bool)

  /** `findById` on the message collection. */
  function IndexOfMessage(messages: seq<Message>, id: Id): (r: Option<nat>)
    ensures r.None? <==> forall i :: 0 <= i < |messages| ==> messages[i].id != id
    ensures r.Some? ==> r.value < |messages| && messages[r.value].id == id
    ensures r.Some? ==> forall i :: 0 <= i < r.value ==> messages[i].id != id
  {
    FirstIndex(messages, (m: Message) => m.id == id)
  }
}

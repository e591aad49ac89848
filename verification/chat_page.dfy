/** The pure logic of `src/pages/ChatPage.jsx`: the room id both users of a
    chat derive, and how sending, receiving and typing change the message
    list and the events emitted on the socket. The clock (`Date.now()`,
    `toLocaleTimeString`) is a parameter. */
module ChatPage {
  import opened Common
  import opened UserModel
  import opened AuthContext

  /** `a` sorts before `b` under the default `Array.prototype.sort` order:
      character by character, a proper prefix first. */
  predicate LexLess(a: string, b: string)
    decreases |a|
  {
    if |a| == 0 then |b| > 0
    else if |b| == 0 then false
    else if a[0] != b[0] then a[0] < b[0]
    else LexLess(a[1..], b[1..])
  }

  /** Of two different strings exactly one sorts first. */
  lemma {:induction false} LexLessTotal(a: string, b: string)
    requires a != b
    ensures LexLess(a, b) != LexLess(b, a)
    decreases |a|
  {
    if |a| > 0 && |b| > 0 && a[0] == b[0] {
      assert a == [a[0]] + a[1..] && b == [b[0]] + b[1..];
      LexLessTotal(a[1..], b[1..]);
    }
  }

  /** No string sorts before itself. */
  lemma {:induction false} LexLessIrreflexive(a: string)
    ensures !LexLess(a, a)
    decreases |a|
  {
    if |a| > 0 {
      LexLessIrreflexive(a[1..]);
    }
  }

  /** `[x, y].sort()`: the two in ascending order, kept as they are when
      neither sorts first. */
  function Sort2(x: string, y: string): (r: (string, string))
    ensures (r.0 == x && r.1 == y) || (r.0 == y && r.1 == x)
    ensures !LexLess(r.1, r.0)
  {
    if LexLess(y, x) then
      LexLessIrreflexive(x);
      LexLessTotal(x, y);
      (y, x)
    else (x, y)
  }

  /** `` `chat_${[me, buddy].sort().join('_')}` ``. */
  function RoomId(me: Id, buddy: Id): (r: string)
    ensures exists lo, hi ::
              && ((lo == me && hi == buddy) || (lo == buddy && hi == me))
              && !LexLess(hi, lo)
              && r == "chat_" + lo + "_" + hi
  {
    var p := Sort2(me, buddy);
    "chat_" + p.0 + "_" + p.1
  }

  /** Both users of a chat land in the same room. */
  lemma RoomIdSymmetric(a: Id, b: Id)
    ensures RoomId(a, b) == RoomId(b, a)
  {
    if a != b {
      LexLessTotal(a, b);
    }
  }

  datatype Side = Me | Buddy

  /** One entry of the `messages` list. */
  datatype Bubble = Bubble(id: int, sender: Side, text: string, timestamp: string)

  /** What the page emits on its socket. */
  datatype Emit =
    | RegisterEmit(userId: Id)
    | JoinEmit(joinRoom: string, joiner: Id)
    | SendEmit(senderId: Id, message: string, sendRoom: string)
    | TypingEmit(typingRoom: string, typist: Id, isTyping: bool)

  datatype ChatView = ChatView(messages: seq<Bubble>, input: string, emitted: seq<Emit>, buddyTyping: bool)

  /** The characters `String.prototype.trim` strips: white space and line
      terminators. */
  predicate IsSpace(c: char)
  {
    || c == ' ' || c == '\t' || c == '\n' || c == '\r' || c == '\U{000B}' || c == '\U{000C}'
    || c == '\U{00A0}' || c == '\U{1680}' || '\U{2000}' <= c <= '\U{200A}'
    || c == '\U{2028}' || c == '\U{2029}' || c == '\U{202F}' || c == '\U{205F}'
    || c == '\U{3000}' || c == '\U{FEFF}'
  }

  /** `s.trim() === ""`. */
  predicate Blank(s: string)
  {
    forall i :: 0 <= i < |s| ==> IsSpace(s[i])
  }

  /** The connection effect: register the session user, then join the room
      with the buddy. Nothing happens without a user. */
  function Connect(v: ChatView, user: Option<SessionUser>, buddyId: Id): (r: ChatView)
    ensures user.None? ==> r == v
    ensures user.Some? ==>
              r == v.(emitted := v.emitted + [RegisterEmit(SelfId(user.value)),
                                              JoinEmit(RoomId(SelfId(user.value), buddyId), SelfId(user.value))])
  {
    match user
    case None => v
    case Some(u) =>
      var me := SelfId(u);
      v.(emitted := v.emitted + [RegisterEmit(me), JoinEmit(RoomId(me, buddyId), me)])
  }

  /** `handleSendMessage`: a blank input, a missing socket or a missing user
      change nothing. Otherwise the input is shown as the user's own message,
      sent once to the room, the typing indicator is switched off, and the
      input is cleared. */
  function HandleSend(v: ChatView, user: Option<SessionUser>, socketOpen: bool, buddyId: Id,
                      now: int, clock: string): (r: ChatView)
    ensures Blank(v.input) || !socketOpen || user.None? ==> r == v
    ensures !(Blank(v.input) || !socketOpen || user.None?) ==>
              var me := SelfId(user.value);
              var room := RoomId(me, buddyId);
              && r.messages == v.messages + [Bubble(now, Me, v.input, clock)]
              && r.input == ""
              && r.emitted == v.emitted + [SendEmit(me, v.input, room), TypingEmit(room, me, false)]
              && r.buddyTyping == v.buddyTyping
  {
    if Blank(v.input) || !socketOpen || user.None? then v
    else
      var me := SelfId(user.value);
      var room := RoomId(me, buddyId);
      ChatView(v.messages + [Bubble(now, Me, v.input, clock)], "",
               v.emitted + [SendEmit(me, v.input, room), TypingEmit(room, me, false)], v.buddyTyping)
  }

  /** A `receive_message` event: one buddy message at the end. */
  function Receive(v: ChatView, message: string, now: int, clock: string): (r: ChatView)
    ensures r.messages == v.messages + [Bubble(now, Buddy, message, clock)]
    ensures r.input == v.input && r.emitted == v.emitted && r.buddyTyping == v.buddyTyping
  {
    v.(messages := v.messages + [Bubble(now, Buddy, message, clock)])
  }

  /** A `user_typing` event. */
  function OnBuddyTyping(v: ChatView, isTyping: bool): (r: ChatView)
    ensures r.buddyTyping == isTyping
    ensures r.messages == v.messages && r.input == v.input && r.emitted == v.emitted
  {
    v.(buddyTyping := isTyping)
  }

  /** The input's `onChange`: the text is taken, and with a socket and a
      user the typing indicator is switched on in the room. */
  function OnInput(v: ChatView, value: string, user: Option<SessionUser>, socketOpen: bool, buddyId: Id): (r: ChatView)
    ensures r.input == value && r.messages == v.messages && r.buddyTyping == v.buddyTyping
    ensures !socketOpen || user.None? ==> r.emitted == v.emitted
    ensures socketOpen && user.Some? ==>
              r.emitted == v.emitted + [TypingEmit(RoomId(SelfId(user.value), buddyId), SelfId(user.value), true)]
  {
    if socketOpen && user.Some? then
      var me := SelfId(user.value);
      v.(input := value, emitted := v.emitted + [TypingEmit(RoomId(me, buddyId), me, true)])
    else v.(input := value)
  }

  /** Join, send and both typing emits of one page use one room. */
  lemma OneRoomPerChat(v: ChatView, u: SessionUser, buddyId: Id, text: string, now: int, clock: string)
    requires !Blank(text)
    ensures var joined := Connect(v, Some(u), buddyId);
            var typed := OnInput(joined, text, Some(u), true, buddyId);
            var sent := HandleSend(typed, Some(u), true, buddyId, now, clock);
            var n := |v.emitted|;
            && |sent.emitted| == n + 5
            && sent.emitted[n + 1].joinRoom == sent.emitted[n + 2].typingRoom
            && sent.emitted[n + 1].joinRoom == sent.emitted[n + 3].sendRoom
            && sent.emitted[n + 1].joinRoom == sent.emitted[n + 4].typingRoom
  {
  }

  /** Two users chatting with each other join the same room. */
  lemma PartnersShareRoom(a: SessionUser, b: SessionUser, va: ChatView, vb: ChatView)
    ensures var ja := Connect(va, Some(a), SelfId(b));
            var jb := Connect(vb, Some(b), SelfId(a));
            ja.emitted[|va.emitted| + 1].joinRoom == jb.emitted[|vb.emitted| + 1].joinRoom
  {
    RoomIdSymmetric(SelfId(a), SelfId(b));
  }
}

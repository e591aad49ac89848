/** The REST backend as one store: the handlers of the user, friend and chat
    controllers applied one after another, and the invariants every run keeps
    when it starts from a store that has them. Also relates the socket relay
    of `backend/server.js` to the REST conversation listing. */
module Backend {
  import opened Common
  import opened UserModel
  import opened MessageModel
  import UC = UserController
  import FC = FriendController
  import Chat = ChatController
  import R = Relay

  datatype Backend = Backend(users: seq<User>, requests: seq<FC.FriendRequest>, messages: seq<Message>)

  /** One mutating REST call, with what the database would decide supplied:
      the ids it assigns and whether a message save succeeds. */
  datatype Call =
    | RegisterUser(body: UC.RegisterBody, userId: Id)
    | SendRequest(senderId: Id, receiverId: Id, requestId: Id)
    | AcceptRequest(acceptId: Id)
    | RejectRequest(rejectId: Id)
    | PostMessage(from: Id, to: Option<Id>, content: string, messageId: Id, saved: bool)
    | MarkRead(readId: Id)

  function Apply(b: Backend, c: Call): Backend
  {
    match c
    case RegisterUser(body, id) => b.(users := UC.Register(b.users, body, id).1)
    case SendRequest(s, r, id) =>
      var st := FC.SendFriendRequest(FC.Store(b.users, b.requests), s, r, id).1;
      b.(users := st.users, requests := st.requests)
    case AcceptRequest(id) =>
      var st := FC.AcceptFriendRequest(FC.Store(b.users, b.requests), id).1;
      b.(users := st.users, requests := st.requests)
    case RejectRequest(id) =>
      var st := FC.RejectFriendRequest(FC.Store(b.users, b.requests), id).1;
      b.(users := st.users, requests := st.requests)
    case PostMessage(from, to, content, id, saved) =>
      b.(messages := Chat.SendMessage(b.messages, from, to, content, id, saved).1)
    case MarkRead(id) => b.(messages := Chat.MarkAsRead(b.messages, id).1)
  }

  function ApplyAll(b: Backend, calls: seq<Call>): Backend
    decreases |calls|
  {
    if |calls| == 0 then b else ApplyAll(Apply(b, calls[0]), calls[1..])
  }

  /** The id Mongo assigns a new user is not already taken. */
  predicate FreshIds(b: Backend, calls: seq<Call>)
    decreases |calls|
  {
    |calls| > 0 ==>
      && (calls[0].RegisterUser? ==> !HasId(b.users, calls[0].userId))
      && FreshIds(Apply(b, calls[0]), calls[1..])
  }

  /** Friendship goes both ways. */
  predicate Symmetric(users: seq<User>)
  {
    forall i, j :: 0 <= i < |users| && 0 <= j < |users| ==>
      (users[j].id in users[i].friends <==> users[i].id in users[j].friends)
  }

  /** The invariants of the user collection on its own: distinct ids and
      emails, schema-valid documents, and duplicate-free, self-free,
      symmetric friend lists that name stored users. */
  predicate UsersGood(users: seq<User>)
  {
    && UniqueIds(users)
    && UniqueEmails(users)
    && (forall i :: 0 <= i < |users| ==> ValidUser(users[i]))
    && (forall i :: 0 <= i < |users| ==> FC.NoDuplicateIds(users[i].friends))
    && (forall i :: 0 <= i < |users| ==> users[i].id !in users[i].friends)
    && (forall i, f :: 0 <= i < |users| && f in users[i].friends ==> HasId(users, f))
    && Symmetric(users)
  }

  /** Every request joins two different stored users, at most one per pair. */
  predicate RequestsGood(users: seq<User>, requests: seq<FC.FriendRequest>)
  {
    && (forall q :: q in requests ==> q.sender != q.receiver && HasId(users, q.sender) && HasId(users, q.receiver))
    && FC.OnePerPair(requests)
  }

  predicate Good(b: Backend)
  {
    UsersGood(b.users) && RequestsGood(b.users, b.requests)
  }

  /** An empty database has every invariant. */
  lemma EmptyIsGood()
    ensures Good(Backend([], [], []))
  {
  }

  lemma RegisterKeepsGood(b: Backend, body: UC.RegisterBody, id: Id)
    requires Good(b) && !HasId(b.users, id)
    ensures Good(Apply(b, RegisterUser(body, id)))
  {
    var r := UC.Register(b.users, body, id);
    UC.RegisterKeepsEmailsUnique(b.users, body, id);
    UC.RegisterKeepsIdsUnique(b.users, body, id);
    if r.0.Ok? {
      var users := r.1;
      assert users == b.users + [r.0.body];
      forall x | HasId(b.users, x)
        ensures HasId(users, x)
      {
        var i :| 0 <= i < |b.users| && b.users[i].id == x;
        assert users[i] == b.users[i];
      }
      forall i, j | 0 <= i < |users| && 0 <= j < |users|
        ensures users[j].id in users[i].friends <==> users[i].id in users[j].friends
      {
        if i == |b.users| && j < |b.users| {
          assert users[j].id !in users[i].friends;
          assert users[i].id !in users[j].friends;
        } else if j == |b.users| && i < |b.users| {
          assert users[j].id !in users[i].friends;
          assert users[i].id !in users[j].friends;
        }
      }
    }
  }

  lemma SendKeepsGood(b: Backend, s: Id, r: Id, id: Id)
    requires Good(b)
    ensures Good(Apply(b, SendRequest(s, r, id)))
  {
    FC.SendKeepsOnePerPair(FC.Store(b.users, b.requests), s, r, id);
  }

  /** A status change keeps the two parties of every request. */
  lemma StatusChangeKeepsParties(requests: seq<FC.FriendRequest>, k: nat, status: FC.Status, q: FC.FriendRequest)
    requires k < |requests|
    requires q in requests[k := requests[k].(status := status)]
    ensures exists p :: p in requests && p.sender == q.sender && p.receiver == q.receiver
  {
    var after := requests[k := requests[k].(status := status)];
    var j :| 0 <= j < |after| && after[j] == q;
    assert requests[j].sender == q.sender && requests[j].receiver == q.receiver;
  }

  lemma RejectKeepsGood(b: Backend, id: Id)
    requires Good(b)
    ensures Good(Apply(b, RejectRequest(id)))
  {
    var st := FC.Store(b.users, b.requests);
    FC.RejectKeepsOnePerPair(st, id);
    match FC.IndexOfRequest(b.requests, id)
    case None =>
    case Some(k) =>
      forall q | q in Apply(b, RejectRequest(id)).requests
        ensures q.sender != q.receiver && HasId(b.users, q.sender) && HasId(b.users, q.receiver)
      {
        StatusChangeKeepsParties(b.requests, k, FC.Rejected, q);
      }
  }

  lemma AcceptKeepsGood(b: Backend, id: Id)
    requires Good(b)
    ensures Good(Apply(b, AcceptRequest(id)))
  {
    var st := FC.Store(b.users, b.requests);
    FC.AcceptKeepsOnePerPair(st, id);
    match FC.IndexOfRequest(b.requests, id)
    case None =>
    case Some(k) =>
      var q := b.requests[k];
      if q.status == FC.Pending {
        assert q in b.requests;
        FC.AcceptMakesFriends(st, id);
        FC.AcceptKeepsFriendListsDuplicateFree(st, id);
        var after := Apply(b, AcceptRequest(id));
        var s := IndexOfId(b.users, q.sender).value;
        var v := IndexOfId(b.users, q.receiver).value;
        AcceptKeepsUsersGood(b.users, after.users, s, v, q.sender, q.receiver);
        forall p | p in after.requests
          ensures p.sender != p.receiver && HasId(after.users, p.sender) && HasId(after.users, p.receiver)
        {
          StatusChangeKeepsParties(b.requests, k, FC.Accepted, p);
        }
      }
  }

  /** Adding the two parties to each other's lists, and changing nothing
      else, keeps the user invariants. */
  lemma AcceptKeepsUsersGood(before: seq<User>, after: seq<User>, s: nat, v: nat, a: Id, c: Id)
    requires UsersGood(before)
    requires |after| == |before| && s < |before| && v < |before| && a != c
    requires before[s].id == a && before[v].id == c
    requires after[s] == before[s].(friends := after[s].friends)
    requires after[v] == before[v].(friends := after[v].friends)
    requires after[s].friends == before[s].friends + (if c in before[s].friends then [] else [c])
    requires after[v].friends == before[v].friends + (if a in before[v].friends then [] else [a])
    requires forall x :: 0 <= x < |after| && x != s && x != v ==> after[x] == before[x]
    requires forall x :: 0 <= x < |after| ==> FC.NoDuplicateIds(after[x].friends)
    ensures UsersGood(after)
    ensures forall x :: HasId(after, x) <==> HasId(before, x)
  {
    assert forall i :: 0 <= i < |after| ==> after[i].id == before[i].id;
    forall x | HasId(before, x)
      ensures HasId(after, x)
    {
      var i :| 0 <= i < |before| && before[i].id == x;
      assert after[i].id == x;
    }
    forall x | HasId(after, x)
      ensures HasId(before, x)
    {
      var i :| 0 <= i < |after| && after[i].id == x;
      assert before[i].id == x;
    }
    forall i, j | 0 <= i < |after| && 0 <= j < |after|
      ensures after[j].id in after[i].friends <==> after[i].id in after[j].friends
    {
      AcceptPairSymmetric(before, after, s, v, a, c, i, j);
    }
  }

  /** The case analysis behind symmetry after an accept: only the pair of the
      two parties gains an edge, and it gains it in both directions. */
  lemma AcceptPairSymmetric(before: seq<User>, after: seq<User>, s: nat, v: nat, a: Id, c: Id, i: nat, j: nat)
    requires UniqueIds(before) && Symmetric(before)
    requires |after| == |before| && s < |before| && v < |before| && s != v
    requires before[s].id == a && before[v].id == c
    requires forall x :: 0 <= x < |after| ==> after[x].id == before[x].id
    requires after[s].friends == before[s].friends + (if c in before[s].friends then [] else [c])
    requires after[v].friends == before[v].friends + (if a in before[v].friends then [] else [a])
    requires forall x :: 0 <= x < |after| && x != s && x != v ==> after[x] == before[x]
    requires i < |after| && j < |after|
    ensures after[j].id in after[i].friends <==> after[i].id in after[j].friends
  {
    assert before[j].id in before[i].friends <==> before[i].id in before[j].friends;
    if i == s && j != v {
      assert after[j].id != c;
    } else if j == s && i != v {
      assert after[i].id != c;
    } else if i == v && j != s {
      assert after[j].id != a;
    } else if j == v && i != s {
      assert after[i].id != a;
    }
  }

  lemma ApplyKeepsGood(b: Backend, c: Call)
    requires Good(b)
    requires c.RegisterUser? ==> !HasId(b.users, c.userId)
    ensures Good(Apply(b, c))
  {
    match c
    case RegisterUser(body, id) => RegisterKeepsGood(b, body, id);
    case SendRequest(s, r, id) => SendKeepsGood(b, s, r, id);
    case AcceptRequest(id) => AcceptKeepsGood(b, id);
    case RejectRequest(id) => RejectKeepsGood(b, id);
    case PostMessage(_, _, _, _, _) =>
    case MarkRead(_) =>
  }

  /** Every run of REST calls from a store with the invariants, new users
      getting fresh ids, ends in a store with the invariants: unique ids and
      emails, schema-valid users, duplicate-free, self-free, symmetric friend
      lists naming stored users, and at most one request per pair. */
  lemma {:induction false} ApplyAllKeepsGood(b: Backend, calls: seq<Call>)
    requires Good(b) && FreshIds(b, calls)
    ensures Good(ApplyAll(b, calls))
    decreases |calls|
  {
    if |calls| > 0 {
      ApplyKeepsGood(b, calls[0]);
      ApplyAllKeepsGood(Apply(b, calls[0]), calls[1..]);
    }
  }

  /** A message sent through the socket relay is stored without a receiver,
      so it never shows up in any REST conversation listing. */
  lemma RelayMessagesNotListed(st: R.Relay, from: R.SocketId, data: R.SendData, newId: Id, now: int,
                               saved: bool, a: Id, b: Id)
    requires R.UniqueKeys(st.registry)
    ensures Chat.GetMessages(R.Handle(st, from, R.Send(data), newId, now, saved).messages, a, b)
         == Chat.GetMessages(st.messages, a, b)
  {
    if saved {
      var m := R.Handle(st, from, R.Send(data), newId, now, saved).messages;
      FilterAppend(st.messages, m[|st.messages|..],
                   (x: Message) => Chat.From(x, a, b) || Chat.From(x, b, a));
      assert m == st.messages + m[|st.messages|..];
    }
  }
}

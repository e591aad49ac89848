/** The friend-request workflow of `backend/controllers/friendController.js`:
    requests go `Pending -> Accepted | Rejected`, and accepting one puts each
    user in the other's friend list. Every handler is a transition of a store
    holding the user and request collections. */
module FriendController {
  import opened Common
  import opened UserModel

  /** `status` of a request. A new request is `Pending`: the request model
      is not part of this model, and that default is taken from how the
      controller uses it. */
  datatype Status = Pending | Accepted | Rejected

  datatype FriendRequest = FriendRequest(id: Id, sender: Id, receiver: Id, status: Status)

  datatype Store = Store(users: seq<User>, requests: seq<FriendRequest>)

  /** A friend as `populate('friends', 'name subjects studyStyle timeSlots academicGoal')` shows it. */
  datatype FriendView = FriendView(
    id: Id,
    name: string,
    subjects: seq<string>,
    studyStyle: Option<string>,
    timeSlots: seq<string>,
    academicGoal: Option<string>)

  const SelfRequest := "Cannot send friend request to yourself"
  const UserNotFound := "User not found"
  const AlreadyFriends := "Users are already friends"
  const RequestExists := "Friend request already exists"
  const RequestNotFound := "Friend request not found"
  const NotPending := "Friend request is not pending"
  const AcceptFailed := "Error accepting friend request"

  /** `r` joins `a` and `b`, in either direction. */
  predicate Joins(r: FriendRequest, a: Id, b: Id)
  {
    (r.sender == a && r.receiver == b) || (r.sender == b && r.receiver == a)
  }

  /** The `$or` query of `sendFriendRequest`: any request between the two,
      whatever its status. */
  predicate RequestBetween(requests: seq<FriendRequest>, a: Id, b: Id)
  {
    exists i :: 0 <= i < |requests| && Joins(requests[i], a, b)
  }

  /** At most one request per unordered pair of users. */
  predicate OnePerPair(requests: seq<FriendRequest>)
  {
    forall i, j :: 0 <= i < j < |requests| ==> !Joins(requests[j], requests[i].sender, requests[i].receiver)
  }

  /** `findById` on the request collection. */
  function IndexOfRequest(requests: seq<FriendRequest>, id: Id): (r: Option<nat>)
    ensures r.None? <==> forall i :: 0 <= i < |requests| ==> requests[i].id != id
    ensures r.Some? ==> r.value < |requests| && requests[r.value].id == id
  {
    FirstIndex(requests, (q: FriendRequest) => q.id == id)
  }

  /** `sendFriendRequest`. The guards run in the source's order: self
      request (400, before any lookup), unknown user (404), existing
      friendship in either list (400), existing request in either direction
      and any status (400). Only then is one `Pending` request appended. */
  function SendFriendRequest(st: Store, senderId: Id, receiverId: Id, newId: Id): (r: (Response<FriendRequest>, Store))
    ensures senderId == receiverId ==> r.0 == Error(400, SelfRequest)
    ensures senderId != receiverId && (!HasId(st.users, senderId) || !HasId(st.users, receiverId)) ==>
              r.0 == Error(404, UserNotFound)
    ensures senderId != receiverId && HasId(st.users, senderId) && HasId(st.users, receiverId) ==>
              var friends := receiverId in st.users[IndexOfId(st.users, senderId).value].friends
                             || senderId in st.users[IndexOfId(st.users, receiverId).value].friends;
              && (friends ==> r.0 == Error(400, AlreadyFriends))
              && (!friends && RequestBetween(st.requests, senderId, receiverId) ==> r.0 == Error(400, RequestExists))
    ensures r.0.Error? ==> r.1 == st
    ensures r.0.Ok? <==>
              && senderId != receiverId
              && HasId(st.users, senderId) && HasId(st.users, receiverId)
              && receiverId !in st.users[IndexOfId(st.users, senderId).value].friends
              && senderId !in st.users[IndexOfId(st.users, receiverId).value].friends
              && !RequestBetween(st.requests, senderId, receiverId)
    ensures r.0.Ok? ==>
              && r.0.status == 201
              && r.0.body == FriendRequest(newId, senderId, receiverId, Pending)
              && r.1 == Store(st.users, st.requests + [r.0.body])
  {
    if senderId == receiverId then (Error(400, SelfRequest), st)
    else
      match (IndexOfId(st.users, senderId), IndexOfId(st.users, receiverId))
      case (Some(s), Some(v)) =>
        if receiverId in st.users[s].friends || senderId in st.users[v].friends then
          (Error(400, AlreadyFriends), st)
        else if FirstIndex(st.requests, (q: FriendRequest) => Joins(q, senderId, receiverId)).Some? then
          (Error(400, RequestExists), st)
        else
          var req := FriendRequest(newId, senderId, receiverId, Pending);
          (Ok(201, req), Store(st.users, st.requests + [req]))
      case _ => (Error(404, UserNotFound), st)
  }

  /** `friends.push(id)` guarded by `friends.includes(id)`. */
  function AddFriend(u: User, friendId: Id): (v: User)
    ensures friendId in v.friends
    ensures friendId in u.friends ==> v == u
    ensures friendId !in u.friends ==> v.friends == u.friends + [friendId]
    ensures v == u.(friends := v.friends)
  {
    if friendId in u.friends then u else u.(friends := u.friends + [friendId])
  }

  /** `acceptFriendRequest`: 404 for an unknown request and 400 for one that
      is not pending, both leaving the store alone. Otherwise the status
      becomes `Accepted` and is saved first; then the sender gets the
      receiver as a friend and the receiver gets the sender, each only if not
      already listed. A user document that has disappeared makes the handler
      throw after the status was saved (500). */
  function AcceptFriendRequest(st: Store, requestId: Id): (r: (Response<FriendRequest>, Store))
    ensures IndexOfRequest(st.requests, requestId).None? ==> r == (Error(404, RequestNotFound), st)
    ensures IndexOfRequest(st.requests, requestId).Some? &&
            st.requests[IndexOfRequest(st.requests, requestId).value].status != Pending ==>
              r == (Error(400, NotPending), st)
    ensures IndexOfRequest(st.requests, requestId).Some? &&
            st.requests[IndexOfRequest(st.requests, requestId).value].status == Pending ==>
              var k := IndexOfRequest(st.requests, requestId).value;
              && r.1.requests == st.requests[k := st.requests[k].(status := Accepted)]
              && |r.1.users| == |st.users|
              && (r.0.Ok? <==> HasId(st.users, st.requests[k].sender) && HasId(st.users, st.requests[k].receiver))
              && (r.0.Ok? ==> r.0 == Ok(200, st.requests[k].(status := Accepted)))
              && (r.0.Error? ==> r.0 == Error(500, AcceptFailed))
  {
    match IndexOfRequest(st.requests, requestId)
    case None => (Error(404, RequestNotFound), st)
    case Some(k) =>
      var req := st.requests[k];
      if req.status != Pending then (Error(400, NotPending), st)
      else
        var updated := req.(status := Accepted);
        var requests := st.requests[k := updated];
        match IndexOfId(st.users, req.sender)
        case None => (Error(500, AcceptFailed), Store(st.users, requests))
        case Some(s) =>
          var users := st.users[s := AddFriend(st.users[s], req.receiver)];
          match IndexOfId(st.users, req.receiver)
          case None => (Error(500, AcceptFailed), Store(users, requests))
          case Some(v) =>
            (Ok(200, updated), Store(users[v := AddFriend(users[v], req.sender)], requests))
  }

  /** `rejectFriendRequest`: `findByIdAndUpdate` sets `Rejected` whatever the
      current status, or answers 404. No user document changes. */
  function RejectFriendRequest(st: Store, requestId: Id): (r: (Response<FriendRequest>, Store))
    ensures IndexOfRequest(st.requests, requestId).None? <==> r.0.Error?
    ensures r.0.Error? ==> r == (Error(404, RequestNotFound), st)
    ensures r.0.Ok? ==>
              var k := IndexOfRequest(st.requests, requestId).value;
              && r.0 == Ok(200, st.requests[k].(status := Rejected))
              && r.1 == Store(st.users, st.requests[k := r.0.body])
  {
    match IndexOfRequest(st.requests, requestId)
    case None => (Error(404, RequestNotFound), st)
    case Some(k) =>
      var updated := st.requests[k].(status := Rejected);
      (Ok(200, updated), Store(st.users, st.requests[k := updated]))
  }

  /** `getFriendRequests`: every request the user sent or received, in both
      directions and every status, in store order. The user need not exist. */
  function GetFriendRequests(st: Store, userId: Id): (r: seq<FriendRequest>)
    ensures forall q :: q in r <==> q in st.requests && (q.sender == userId || q.receiver == userId)
    ensures IsSubseq(r, st.requests)
  {
    Filter(st.requests, Involves(userId))
  }

  /** The `$or` of `getFriendRequests`: the user is sender or receiver. */
  function Involves(userId: Id): FriendRequest -> bool
  {
    (q: FriendRequest) => q.sender == userId || q.receiver == userId
  }

  function View(u: User): FriendView
  {
    FriendView(u.id, u.name, u.subjects, u.studyStyle, u.timeSlots, u.academicGoal)
  }

  /** The ids that name a stored user. */
  function Stored(users: seq<User>): Id -> bool
  {
    id => HasId(users, id)
  }

  /** `populate` of a friend list: each id that still names a user becomes
      that user's public fields, in list order; dangling ids drop out. */
  function Populate(users: seq<User>, ids: seq<Id>): (r: seq<FriendView>)
    ensures |r| == |Filter(ids, Stored(users))|
    ensures forall i :: 0 <= i < |r| ==>
              var id := Filter(ids, Stored(users))[i];
              HasId(users, id) && r[i] == View(users[IndexOfId(users, id).value])
    ensures forall f :: f in r ==> f.id in ids && HasId(users, f.id)
  {
    if |ids| == 0 then []
    else
      var rest := Populate(users, ids[1..]);
      FilterHead(ids, Stored(users));
      match IndexOfId(users, ids[0])
      case None => rest
      case Some(i) =>
        PopulateKeep(users, ids, i, rest);
        [View(users[i])] + rest
  }

  /** The step of `Populate` for an id that names the user at `i`. */
  lemma PopulateKeep(users: seq<User>, ids: seq<Id>, i: nat, rest: seq<FriendView>)
    requires |ids| > 0 && IndexOfId(users, ids[0]) == Some(i)
    requires |rest| == |Filter(ids[1..], Stored(users))|
    requires forall k :: 0 <= k < |rest| ==>
               var id := Filter(ids[1..], Stored(users))[k];
               HasId(users, id) && rest[k] == View(users[IndexOfId(users, id).value])
    requires forall f :: f in rest ==> f.id in ids[1..] && HasId(users, f.id)
    ensures var r := [View(users[i])] + rest;
            && |r| == |Filter(ids, Stored(users))|
            && (forall k :: 0 <= k < |r| ==>
                  var id := Filter(ids, Stored(users))[k];
                  HasId(users, id) && r[k] == View(users[IndexOfId(users, id).value]))
            && forall f :: f in r ==> f.id in ids && HasId(users, f.id)
  {
    PopulateKeepIndexed(users, ids, i, rest);
    PopulateKeepMembers(users, ids, i, rest);
  }

  lemma PopulateKeepIndexed(users: seq<User>, ids: seq<Id>, i: nat, rest: seq<FriendView>)
    requires |ids| > 0 && IndexOfId(users, ids[0]) == Some(i)
    requires |rest| == |Filter(ids[1..], Stored(users))|
    requires forall k :: 0 <= k < |rest| ==>
               var id := Filter(ids[1..], Stored(users))[k];
               HasId(users, id) && rest[k] == View(users[IndexOfId(users, id).value])
    ensures var r := [View(users[i])] + rest;
            && |r| == |Filter(ids, Stored(users))|
            && forall k :: 0 <= k < |r| ==>
                 var id := Filter(ids, Stored(users))[k];
                 HasId(users, id) && r[k] == View(users[IndexOfId(users, id).value])
  {
    var tail := Filter(ids[1..], Stored(users));
    FilterHead(ids, Stored(users));
    assert Stored(users)(ids[0]);
    var kept := [ids[0]] + tail;
    assert Filter(ids, Stored(users)) == kept;
    var r := [View(users[i])] + rest;
    forall k | 0 <= k < |r|
      ensures HasId(users, kept[k]) && r[k] == View(users[IndexOfId(users, kept[k]).value])
    {
      if k > 0 {
        assert r[k] == rest[k - 1] && kept[k] == tail[k - 1];
      }
    }
  }

  lemma PopulateKeepMembers(users: seq<User>, ids: seq<Id>, i: nat, rest: seq<FriendView>)
    requires |ids| > 0 && IndexOfId(users, ids[0]) == Some(i)
    requires forall f :: f in rest ==> f.id in ids[1..] && HasId(users, f.id)
    ensures forall f :: f in [View(users[i])] + rest ==> f.id in ids && HasId(users, f.id)
  {
    forall f | f in [View(users[i])] + rest
      ensures f.id in ids && HasId(users, f.id)
    {
      if f != View(users[i]) {
        assert f in rest;
      }
    }
  }

  /** Every stored user an id list names shows up in its population. */
  lemma PopulateShowsEveryStoredFriend(users: seq<User>, ids: seq<Id>, id: Id)
    requires id in ids && HasId(users, id)
    ensures View(users[IndexOfId(users, id).value]) in Populate(users, ids)
  {
    var kept := Filter(ids, Stored(users));
    assert id in kept;
    var i :| 0 <= i < |kept| && kept[i] == id;
    assert Populate(users, ids)[i] == View(users[IndexOfId(users, id).value]);
  }

  /** `getFriends`: the user's friend list, populated, or 404. The reply
      holds the friends that are still stored, in list order, and nobody
      else. */
  function GetFriends(st: Store, userId: Id): (r: Response<seq<FriendView>>)
    ensures r.Error? <==> !HasId(st.users, userId)
    ensures r.Error? ==> r == Error(404, UserNotFound)
    ensures r.Ok? ==>
              var u := st.users[IndexOfId(st.users, userId).value];
              && r.status == 200
              && r.body == Populate(st.users, u.friends)
              && (forall f :: f in r.body ==> f.id in u.friends)
              && forall id :: id in u.friends && HasId(st.users, id) ==>
                   View(st.users[IndexOfId(st.users, id).value]) in r.body
  {
    match IndexOfId(st.users, userId)
    case None => Error(404, UserNotFound)
    case Some(i) =>
      var friends := st.users[i].friends;
      forall id | id in friends && HasId(st.users, id)
        ensures View(st.users[IndexOfId(st.users, id).value]) in Populate(st.users, friends)
      {
        PopulateShowsEveryStoredFriend(st.users, friends, id);
      }
      Ok(200, Populate(st.users, friends))
  }

  /** Changing a request's status leaves every pair where it was. */
  lemma StatusChangeKeepsOnePerPair(requests: seq<FriendRequest>, k: nat, status: Status)
    requires k < |requests| && OnePerPair(requests)
    ensures OnePerPair(requests[k := requests[k].(status := status)])
  {
    var after := requests[k := requests[k].(status := status)];
    forall i, j | 0 <= i < j < |after|
      ensures !Joins(after[j], after[i].sender, after[i].receiver)
    {
      assert after[i].sender == requests[i].sender && after[i].receiver == requests[i].receiver;
      assert after[j].sender == requests[j].sender && after[j].receiver == requests[j].receiver;
    }
  }

  lemma SendKeepsOnePerPair(st: Store, senderId: Id, receiverId: Id, newId: Id)
    requires OnePerPair(st.requests)
    ensures OnePerPair(SendFriendRequest(st, senderId, receiverId, newId).1.requests)
  {
  }

  lemma AcceptKeepsOnePerPair(st: Store, requestId: Id)
    requires OnePerPair(st.requests)
    ensures OnePerPair(AcceptFriendRequest(st, requestId).1.requests)
  {
    match IndexOfRequest(st.requests, requestId)
    case None =>
    case Some(k) =>
      StatusChangeKeepsOnePerPair(st.requests, k, Accepted);
  }

  lemma RejectKeepsOnePerPair(st: Store, requestId: Id)
    requires OnePerPair(st.requests)
    ensures OnePerPair(RejectFriendRequest(st, requestId).1.requests)
  {
    match IndexOfRequest(st.requests, requestId)
    case None =>
    case Some(k) =>
      StatusChangeKeepsOnePerPair(st.requests, k, Rejected);
  }

  /** One request-handling call, with the ids Mongo would assign supplied. */
  datatype Op = Send(senderId: Id, receiverId: Id, newId: Id) | Accept(requestId: Id) | Reject(requestId: Id)

  function Step(st: Store, op: Op): Store
  {
    match op
    case Send(s, r, id) => SendFriendRequest(st, s, r, id).1
    case Accept(id) => AcceptFriendRequest(st, id).1
    case Reject(id) => RejectFriendRequest(st, id).1
  }

  /** The handlers applied one after another, as the event loop runs them. */
  function Run(st: Store, ops: seq<Op>): Store
    decreases |ops|
  {
    if |ops| == 0 then st else Run(Step(st, ops[0]), ops[1..])
  }

  /** In any sequential run that starts without duplicates there is at most
      one request per unordered pair of users. */
  lemma {:induction false} RunKeepsOnePerPair(st: Store, ops: seq<Op>)
    requires OnePerPair(st.requests)
    ensures OnePerPair(Run(st, ops).requests)
    decreases |ops|
  {
    if |ops| > 0 {
      match ops[0] {
        case Send(s, r, id) => SendKeepsOnePerPair(st, s, r, id);
        case Accept(id) => AcceptKeepsOnePerPair(st, id);
        case Reject(id) => RejectKeepsOnePerPair(st, id);
      }
      RunKeepsOnePerPair(Step(st, ops[0]), ops[1..]);
    }
  }

  /** No handler deletes a request or changes who it joins. */
  lemma {:induction false} RunKeepsPairs(st: Store, ops: seq<Op>, a: Id, b: Id)
    requires RequestBetween(st.requests, a, b)
    ensures RequestBetween(Run(st, ops).requests, a, b)
    decreases |ops|
  {
    if |ops| > 0 {
      var next := Step(st, ops[0]);
      var i :| 0 <= i < |st.requests| && Joins(st.requests[i], a, b);
      assert |next.requests| >= |st.requests|;
      assert next.requests[i].sender == st.requests[i].sender;
      assert next.requests[i].receiver == st.requests[i].receiver;
      RunKeepsPairs(next, ops[1..], a, b);
    }
  }

  /** Once two users have a request between them, whatever became of it
      (accepted or rejected), neither can ever send the other a request
      again: a rejection locks the pair out for good. */
  lemma RequestedPairLockedOut(st: Store, ops: seq<Op>, a: Id, b: Id, newId: Id)
    requires RequestBetween(st.requests, a, b)
    ensures SendFriendRequest(Run(st, ops), a, b, newId).0.Error?
    ensures SendFriendRequest(Run(st, ops), b, a, newId).0.Error?
  {
    RunKeepsPairs(st, ops, a, b);
    var after := Run(st, ops);
    var i :| 0 <= i < |after.requests| && Joins(after.requests[i], a, b);
    assert Joins(after.requests[i], b, a);
  }

  /** Accepting a pending request between two existing users (with distinct
      ids) makes each a friend of the other, appends at most one entry to
      each of the two lists, and leaves every other user alone. */
  lemma AcceptMakesFriends(st: Store, requestId: Id)
    requires UniqueIds(st.users)
    requires IndexOfRequest(st.requests, requestId).Some?
    requires var q := st.requests[IndexOfRequest(st.requests, requestId).value];
             q.status == Pending && HasId(st.users, q.sender) && HasId(st.users, q.receiver)
    ensures var q := st.requests[IndexOfRequest(st.requests, requestId).value];
            var s := IndexOfId(st.users, q.sender).value;
            var v := IndexOfId(st.users, q.receiver).value;
            var users := AcceptFriendRequest(st, requestId).1.users;
            && AcceptFriendRequest(st, requestId).0.Ok?
            && |users| == |st.users|
            && q.receiver in users[s].friends
            && q.sender in users[v].friends
            && (q.sender != q.receiver ==>
                  && users[s].friends == st.users[s].friends + (if q.receiver in st.users[s].friends then [] else [q.receiver])
                  && users[v].friends == st.users[v].friends + (if q.sender in st.users[v].friends then [] else [q.sender]))
            && users[s] == st.users[s].(friends := users[s].friends)
            && users[v] == st.users[v].(friends := users[v].friends)
            && forall i :: 0 <= i < |users| && i != s && i != v ==> users[i] == st.users[i]
  {
  }

  /** No duplicate friend entries: duplicate-free friend lists stay so. */
  lemma AcceptKeepsFriendListsDuplicateFree(st: Store, requestId: Id)
    requires forall i :: 0 <= i < |st.users| ==> NoDuplicateIds(st.users[i].friends)
    ensures var users := AcceptFriendRequest(st, requestId).1.users;
            forall i :: 0 <= i < |users| ==> NoDuplicateIds(users[i].friends)
  {
    match IndexOfRequest(st.requests, requestId)
    case None =>
    case Some(k) =>
      var q := st.requests[k];
      if q.status == Pending {
        match IndexOfId(st.users, q.sender)
        case None =>
        case Some(s) =>
          AddFriendKeepsNoDuplicates(st.users[s], q.receiver);
          var users := st.users[s := AddFriend(st.users[s], q.receiver)];
          match IndexOfId(st.users, q.receiver)
          case None =>
          case Some(v) =>
            AddFriendKeepsNoDuplicates(users[v], q.sender);
      }
  }

  predicate NoDuplicateIds(ids: seq<Id>)
  {
    forall i, j :: 0 <= i < j < |ids| ==> ids[i] != ids[j]
  }

  lemma AddFriendKeepsNoDuplicates(u: User, friendId: Id)
    requires NoDuplicateIds(u.friends)
    ensures NoDuplicateIds(AddFriend(u, friendId).friends)
  {
  }

  /** Accepting twice: the second call finds the request no longer pending,
      answers 400 and changes nothing, friend lists included. */
  lemma AcceptTwiceRefused(st: Store, requestId: Id)
    requires AcceptFriendRequest(st, requestId).0.Ok?
    ensures var after := AcceptFriendRequest(st, requestId).1;
            AcceptFriendRequest(after, requestId) == (Error(400, NotPending), after)
  {
    var k := IndexOfRequest(st.requests, requestId).value;
    var after := AcceptFriendRequest(st, requestId).1;
    assert after.requests[k].id == requestId;
    var k' := IndexOfRequest(after.requests, requestId).value;
    assert k' == k;
  }
}

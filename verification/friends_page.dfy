/** The pure logic of `src/pages/FriendsPage.jsx`: how accepting and
    rejecting update the request list shown, which requests count as
    pending, and who the other party of a request is. */
module FriendsPage {
  import opened Common
  import opened UserModel
  import FC = FriendController

  /** A populated `sender` or `receiver`: `_id` and `name`. */
  datatype Party = Party(id: Id, name: string)

  /** A request as the page holds it, with the status as its JSON string. */
  datatype ClientRequest = ClientRequest(id: Id, sender: Party, receiver: Party, status: string)

  function MarkAccepted(q: ClientRequest, requestId: Id): ClientRequest
  {
    if q.id == requestId then q.(status := "accepted") else q
  }

  /** The list update after accepting: the request with that id now reads
      `accepted`; everything else, and the length, stay. */
  function AcceptLocal(reqs: seq<ClientRequest>, requestId: Id): (r: seq<ClientRequest>)
    ensures |r| == |reqs|
    ensures forall i :: 0 <= i < |reqs| && reqs[i].id == requestId ==> r[i] == reqs[i].(status := "accepted")
    ensures forall i :: 0 <= i < |reqs| && reqs[i].id != requestId ==> r[i] == reqs[i]
  {
    if |reqs| == 0 then [] else [MarkAccepted(reqs[0], requestId)] + AcceptLocal(reqs[1..], requestId)
  }

  /** The list update after rejecting: every request with that id is gone,
      the rest keep their order. */
  function RejectLocal(reqs: seq<ClientRequest>, requestId: Id): (r: seq<ClientRequest>)
    ensures forall q :: q in r <==> q in reqs && q.id != requestId
    ensures IsSubseq(r, reqs)
  {
    Filter(reqs, Other(requestId))
  }

  /** `req => req._id !== requestId`. */
  function Other(requestId: Id): ClientRequest -> bool
  {
    (q: ClientRequest) => q.id != requestId
  }

  predicate IsPending(q: ClientRequest)
  {
    q.status == "pending"
  }

  /** The list under the requests tab, and whose length is the badge count. */
  function Pending(reqs: seq<ClientRequest>): (r: seq<ClientRequest>)
    ensures forall q :: q in r <==> q in reqs && q.status == "pending"
    ensures IsSubseq(r, reqs)
  {
    Filter(reqs, IsPending)
  }

  /** Accepting takes the request off the pending list and changes nothing
      else there. */
  lemma {:induction false} AcceptLeavesPending(reqs: seq<ClientRequest>, requestId: Id)
    ensures Pending(AcceptLocal(reqs, requestId)) == Filter(Pending(reqs), Other(requestId))
    decreases |reqs|
  {
    if |reqs| > 0 {
      SplitHead(reqs);
      AcceptLeavesPending(reqs[1..], requestId);
      AcceptLeavesPendingStep(reqs[0], reqs[1..], requestId);
    }
  }

  lemma AcceptLeavesPendingStep(x: ClientRequest, rest: seq<ClientRequest>, requestId: Id)
    requires Pending(AcceptLocal(rest, requestId)) == Filter(Pending(rest), Other(requestId))
    ensures Pending(AcceptLocal([x] + rest, requestId)) == Filter(Pending([x] + rest), Other(requestId))
  {
    var reqs := [x] + rest;
    assert reqs[0] == x && reqs[1..] == rest;
    var m := MarkAccepted(x, requestId);
    assert AcceptLocal(reqs, requestId) == [m] + AcceptLocal(rest, requestId);
    assert IsPending(m) <==> IsPending(x) && Other(requestId)(x);
    FilterCons(m, AcceptLocal(rest, requestId), IsPending);
    FilterCons(x, rest, IsPending);
    if IsPending(x) {
      FilterCons(x, Pending(rest), Other(requestId));
    }
  }

  /** Rejecting does the same to the pending list, so the two buttons differ
      only in what stays on the full list. */
  lemma RejectLeavesPending(reqs: seq<ClientRequest>, requestId: Id)
    ensures Pending(RejectLocal(reqs, requestId)) == Pending(AcceptLocal(reqs, requestId))
  {
    FilterCommute(reqs, Other(requestId), IsPending);
    AcceptLeavesPending(reqs, requestId);
  }

  /** The other party of a request and the line under the name: the
      receiver when the current user sent it, the sender otherwise. */
  function Counterpart(q: ClientRequest, self: Id): (r: (Party, string))
    ensures q.sender.id == self ==> r == (q.receiver, "Request sent")
    ensures q.sender.id != self ==> r == (q.sender, "Sent you a request")
  {
    if q.sender.id == self then (q.receiver, "Request sent") else (q.sender, "Sent you a request")
  }

  /** Accept and Reject are offered on requests the user did not send. */
  predicate ShowActions(q: ClientRequest, self: Id)
  {
    q.sender.id != self
  }

  /** The buttons appear exactly on the cards that name the sender as the
      other party: on requests received, never on requests sent. */
  lemma ActionsOnlyOnReceived(q: ClientRequest, self: Id)
    ensures ShowActions(q, self) <==> Counterpart(q, self).1 == "Sent you a request"
    ensures ShowActions(q, self) ==> Counterpart(q, self).0 == q.sender
  {
  }

  function StatusText(s: FC.Status): string
  {
    match s
    case Pending => "pending"
    case Accepted => "accepted"
    case Rejected => "rejected"
  }

  /** A stored request as the listing returns it, `sender` and `receiver`
      populated with their names. */
  function Shown(q: FC.FriendRequest, nameOf: Id -> string): ClientRequest
  {
    ClientRequest(q.id, Party(q.sender, nameOf(q.sender)), Party(q.receiver, nameOf(q.receiver)), StatusText(q.status))
  }

  function ShownAll(qs: seq<FC.FriendRequest>, nameOf: Id -> string): (r: seq<ClientRequest>)
    ensures |r| == |qs|
    ensures forall i :: 0 <= i < |qs| ==> r[i] == Shown(qs[i], nameOf)
  {
    if |qs| == 0 then [] else [Shown(qs[0], nameOf)] + ShownAll(qs[1..], nameOf)
  }

  /** Every stored request with the id gets the status. */
  function SetStatus(qs: seq<FC.FriendRequest>, requestId: Id, s: FC.Status): (r: seq<FC.FriendRequest>)
    ensures |r| == |qs|
    ensures forall i :: 0 <= i < |qs| ==> r[i] == if qs[i].id == requestId then qs[i].(status := s) else qs[i]
  {
    if |qs| == 0 then [] else
      [if qs[0].id == requestId then qs[0].(status := s) else qs[0]] + SetStatus(qs[1..], requestId, s)
  }

  predicate UniqueRequestIds(qs: seq<FC.FriendRequest>)
  {
    forall i, j :: 0 <= i < j < |qs| ==> qs[i].id != qs[j].id
  }

  /** One step of `SetStatus` on a list with a known head. */
  lemma SetStatusCons(x: FC.FriendRequest, xs: seq<FC.FriendRequest>, requestId: Id, s: FC.Status)
    ensures SetStatus([x] + xs, requestId, s)
              == [if x.id == requestId then x.(status := s) else x] + SetStatus(xs, requestId, s)
  {
    assert ([x] + xs)[1..] == xs;
  }

  /** The status is not what `Involves` looks at. */
  lemma InvolvesIgnoresStatus(x: FC.FriendRequest, s: FC.Status, userId: Id)
    ensures FC.Involves(userId)(x.(status := s)) == FC.Involves(userId)(x)
  {
  }

  /** The inductive step of `SetStatusFilterInvolving`, for one more head. */
  lemma SetStatusFilterStep(x: FC.FriendRequest, rest: seq<FC.FriendRequest>, requestId: Id, s: FC.Status, userId: Id)
    requires Filter(SetStatus(rest, requestId, s), FC.Involves(userId)) == SetStatus(Filter(rest, FC.Involves(userId)), requestId, s)
    ensures Filter(SetStatus([x] + rest, requestId, s), FC.Involves(userId)) == SetStatus(Filter([x] + rest, FC.Involves(userId)), requestId, s)
  {
    var involves := FC.Involves(userId);
    var head := if x.id == requestId then x.(status := s) else x;
    InvolvesIgnoresStatus(x, s, userId);
    SetStatusCons(x, rest, requestId, s);
    FilterCons(head, SetStatus(rest, requestId, s), involves);
    FilterCons(x, rest, involves);
    if involves(x) {
      SetStatusCons(x, Filter(rest, involves), requestId, s);
    }
  }

  /** Setting a status and keeping the requests that involve a user commute. */
  lemma {:induction false} SetStatusFilterInvolving(qs: seq<FC.FriendRequest>, requestId: Id, s: FC.Status, userId: Id)
    ensures Filter(SetStatus(qs, requestId, s), FC.Involves(userId)) == SetStatus(Filter(qs, FC.Involves(userId)), requestId, s)
    decreases |qs|
  {
    if |qs| > 0 {
      SplitHead(qs);
      SetStatusFilterInvolving(qs[1..], requestId, s, userId);
      SetStatusFilterStep(qs[0], qs[1..], requestId, s, userId);
    }
  }

  lemma {:induction false} ShownAccept(qs: seq<FC.FriendRequest>, requestId: Id, nameOf: Id -> string)
    ensures ShownAll(SetStatus(qs, requestId, FC.Accepted), nameOf) == AcceptLocal(ShownAll(qs, nameOf), requestId)
    decreases |qs|
  {
    if |qs| > 0 {
      ShownAccept(qs[1..], requestId, nameOf);
      assert ShownAll(qs, nameOf)[1..] == ShownAll(qs[1..], nameOf);
    }
  }

  /** Against the backend: after a successful accept, marking the request
      locally gives exactly the list the page would fetch again. Request ids
      are taken to be distinct, as document ids are. */
  lemma LocalAcceptAgreesWithBackend(st: FC.Store, requestId: Id, userId: Id, nameOf: Id -> string)
    requires UniqueRequestIds(st.requests)
    requires FC.AcceptFriendRequest(st, requestId).0.Ok?
    ensures var after := FC.AcceptFriendRequest(st, requestId).1;
            ShownAll(FC.GetFriendRequests(after, userId), nameOf)
              == AcceptLocal(ShownAll(FC.GetFriendRequests(st, userId), nameOf), requestId)
  {
    var k := FC.IndexOfRequest(st.requests, requestId).value;
    var after := FC.AcceptFriendRequest(st, requestId).1;
    assert after.requests == SetStatus(st.requests, requestId, FC.Accepted);
    SetStatusFilterInvolving(st.requests, requestId, FC.Accepted, userId);
    ShownAccept(Filter(st.requests, FC.Involves(userId)), requestId, nameOf);
  }
}

/** The pure logic of `src/pages/DashboardPage.jsx`: the match-to-buddy
    transform, the top three shown first, and how `handleConnect` files the
    friend-request reply. Timers that clear a status after three seconds
    are not modelled. */
module DashboardPage {
  import opened Common
  import opened UserModel
  import Ranking
  import MC = MatchController
  import FC = FriendController
  import opened AuthContext

  /** A reply entry's user as the page reads it from JSON. Absent fields are
      `None`. */
  datatype ApiUser = ApiUser(
    mongoId: Option<Id>,
    id: Option<Id>,
    name: Option<string>,
    subjects: Option<seq<string>>,
    studyStyle: Option<string>,
    timeSlots: Option<seq<string>>,
    academicGoal: Option<string>)

  /** A reply entry. A `NaN` score arrives as JSON `null`, that is `None`. */
  datatype ApiMatch = ApiMatch(user: ApiUser, commonSubjects: Option<seq<string>>, compatibilityScore: Option<int>)

  /** One card of the dashboard. */
  datatype Buddy = Buddy(
    id: Option<Id>,
    name: Option<string>,
    subjects: seq<string>,
    studyStyle: string,
    availability: seq<string>,
    goal: string,
    mutualSubjects: nat,
    compatibilityScore: int)

  /** `s || ''` for an optional string. */
  function OrEmpty(s: Option<string>): (r: string)
    ensures s.Some? ==> r == s.value
    ensures s.None? ==> r == ""
  {
    if s.Some? then s.value else ""
  }

  /** `match.user._id || match.user.id`. */
  function BuddyId(u: ApiUser): (r: Option<Id>)
    ensures u.mongoId.Some? && u.mongoId.value != "" ==> r == u.mongoId
    ensures u.mongoId.None? || u.mongoId.value == "" ==> r == u.id
  {
    if u.mongoId.Some? && u.mongoId.value != "" then u.mongoId else u.id
  }

  function ToBuddy(m: ApiMatch): (b: Buddy)
    ensures b.id == BuddyId(m.user)
    ensures b.mutualSubjects == if m.commonSubjects.Some? then |m.commonSubjects.value| else 0
    ensures b.compatibilityScore == if m.compatibilityScore.Some? then m.compatibilityScore.value else 0
    ensures b.subjects == (if m.user.subjects.Some? then m.user.subjects.value else [])
    ensures b.availability == (if m.user.timeSlots.Some? then m.user.timeSlots.value else [])
    ensures b.studyStyle == OrEmpty(m.user.studyStyle) && b.goal == OrEmpty(m.user.academicGoal)
    ensures b.name == m.user.name
  {
    Buddy(BuddyId(m.user), m.user.name, m.user.subjects.GetOr([]), OrEmpty(m.user.studyStyle),
          m.user.timeSlots.GetOr([]), OrEmpty(m.user.academicGoal),
          if m.commonSubjects.Some? then |m.commonSubjects.value| else 0,
          m.compatibilityScore.GetOr(0))
  }

  /** `matches.map(...)`: one buddy per match, in the same order. */
  function Transform(ms: seq<ApiMatch>): (r: seq<Buddy>)
    ensures |r| == |ms|
    ensures forall i :: 0 <= i < |ms| ==> r[i] == ToBuddy(ms[i])
  {
    seq(|ms|, i requires 0 <= i < |ms| => ToBuddy(ms[i]))
  }

  function BuddyScore(b: Buddy): int
  {
    b.compatibilityScore
  }

  /** `topMatches`: a sorted copy cut to three. The buddy list itself is a
      value here and cannot change. */
  function TopMatches(buddies: seq<Buddy>): (r: seq<Buddy>)
    ensures |r| == Min(3, |buddies|)
    ensures Ranking.NonIncreasing(r, BuddyScore)
    ensures multiset(r) <= multiset(buddies)
  {
    Ranking.TopK(buddies, BuddyScore, 3)
  }

  /** No buddy left out of the top three scores above the last one shown. */
  lemma TopMatchesOmitNoBetter(buddies: seq<Buddy>, b: Buddy)
    requires |TopMatches(buddies)| > 0
    requires b in multiset(buddies) - multiset(TopMatches(buddies))
    ensures b.compatibilityScore <= TopMatches(buddies)[|TopMatches(buddies)| - 1].compatibilityScore
  {
    Ranking.TopKOmittedNoBetter(buddies, BuddyScore, 3, b);
  }

  /** The JSON the page receives for one entry of the password-free
      matcher reply. */
  function MatchJson(m: MC.PublicMatch): ApiMatch
  {
    ApiMatch(ApiUser(Some(m.user.id), None, Some(m.user.name), Some(m.user.subjects), m.user.studyStyle,
                     Some(m.user.timeSlots), m.user.academicGoal),
             Some(m.commonSubjects), Some(m.score))
  }

  /** The cards of a reply. */
  function Cards(top: seq<MC.PublicMatch>): (r: seq<Buddy>)
    ensures |r| == |top|
    ensures forall i :: 0 <= i < |top| ==> r[i] == ToBuddy(MatchJson(top[i]))
  {
    Transform(seq(|top|, i requires 0 <= i < |top| => MatchJson(top[i])))
  }

  /** The cards of an ordered reply carry its ids, scores and shared
      subject counts, and their top three are the first three. */
  lemma CardsOfOrderedReply(top: seq<MC.PublicMatch>)
    requires Ranking.NonIncreasing(top, MC.PublicScore)
    ensures var buddies := Cards(top);
            && (forall i :: 0 <= i < |top| ==>
                  && (top[i].user.id != "" ==> buddies[i].id == Some(top[i].user.id))
                  && buddies[i].compatibilityScore == top[i].score
                  && buddies[i].mutualSubjects == |top[i].commonSubjects|)
            && TopMatches(buddies) == Take(buddies, 3)
  {
    var buddies := Cards(top);
    forall i | 0 <= i < |top|
      ensures buddies[i].compatibilityScore == top[i].score
      ensures top[i].user.id != "" ==> buddies[i].id == Some(top[i].user.id)
      ensures buddies[i].mutualSubjects == |top[i].commonSubjects|
    {
      assert buddies[i] == ToBuddy(MatchJson(top[i]));
    }
    forall i, j | 0 <= i < j < |buddies|
      ensures BuddyScore(buddies[i]) >= BuddyScore(buddies[j])
    {
      assert MC.PublicScore(top[i]) >= MC.PublicScore(top[j]);
    }
    Ranking.TopKOfSorted(buddies, BuddyScore, 3);
  }

  /** Against the matcher: since its reply is already ordered, the top three
      cards are simply its first three entries. */
  lemma TopMatchesAreServerFirstThree(users: seq<User>, userId: Id)
    requires MC.FindMatchesRedacted(users, userId).Ok?
    requires MC.FindMatchesRedacted(users, userId).body.PublicRanked?
    ensures var top := MC.FindMatchesRedacted(users, userId).body.top;
            TopMatches(Cards(top)) == Take(Cards(top), 3)
  {
    CardsOfOrderedReply(MC.FindMatchesRedacted(users, userId).body.top);
  }

  /** A buddy's friend-request status; absence means no request shown. */
  datatype RequestStatus = Sending | Sent | Failed

  /** The fields of the friend-request reply `handleConnect` reads. */
  datatype ConnectReply = ConnectReply(message: Option<string>, mongoId: Option<Id>)

  datatype Dashboard = Dashboard(statuses: map<Id, RequestStatus>, error: Option<string>)

  const UnexpectedError := "Unexpected error occurred"
  const NetworkError := "Network error occurred"

  predicate Truthy(s: Option<string>)
  {
    s.Some? && s.value != ""
  }

  /** `handleConnect` once the call settles: a reply with a message is a
      failure showing that message; otherwise one with an `_id` is sent;
      anything else, or a thrown call, is a failure with a fixed message.
      Only the buddy's own status entry changes. Setting `error` also makes
      the page render its error screen instead of the cards. */
  function HandleConnect(d: Dashboard, buddyId: Id, reply: Reply<ConnectReply>): (r: Dashboard)
    ensures buddyId in r.statuses
    ensures forall k :: k != buddyId ==> (k in r.statuses <==> k in d.statuses)
    ensures forall k :: k != buddyId && k in d.statuses ==> r.statuses[k] == d.statuses[k]
    ensures r.statuses[buddyId] == Sent <==>
              reply.Replied? && !Truthy(reply.body.message) && Truthy(reply.body.mongoId)
    ensures r.statuses[buddyId] != Sent ==> r.statuses[buddyId] == Failed
    ensures r.statuses[buddyId] == Sent ==> r.error == d.error
    ensures reply.Replied? && Truthy(reply.body.message) ==> r.error == reply.body.message
    ensures reply.Replied? && !Truthy(reply.body.message) && !Truthy(reply.body.mongoId) ==>
              r.error == Some(UnexpectedError)
    ensures reply.Threw? ==> r.error == Some(NetworkError)
  {
    match reply
    case Threw => Dashboard(d.statuses[buddyId := Failed], Some(NetworkError))
    case Replied(response) =>
      if Truthy(response.message) then Dashboard(d.statuses[buddyId := Failed], response.message)
      else if Truthy(response.mongoId) then Dashboard(d.statuses[buddyId := Sent], d.error)
      else Dashboard(d.statuses[buddyId := Failed], Some(UnexpectedError))
  }

  /** The JSON of a `sendFriendRequest` reply: the saved request (an
      `_id`, no `message`), or `{ message }`. */
  function ConnectJson(r: Response<FC.FriendRequest>): ConnectReply
  {
    match r
    case Ok(_, q) => ConnectReply(None, Some(q.id))
    case Error(_, message) => ConnectReply(Some(message), None)
  }

  /** Against the friend-request handler: the card says sent exactly when
      the backend stored the request, and otherwise shows the backend's
      reason. */
  lemma ConnectAgainstBackend(d: Dashboard, st: FC.Store, me: Id, buddyId: Id, newId: Id)
    requires newId != ""
    ensures var backend := FC.SendFriendRequest(st, me, buddyId, newId).0;
            var r := HandleConnect(d, buddyId, Replied(ConnectJson(backend)));
            && (r.statuses[buddyId] == Sent <==> backend.Ok?)
            && (backend.Error? ==> r.error == Some(backend.message))
  {
    var backend := FC.SendFriendRequest(st, me, buddyId, newId).0;
    if backend.Error? {
      assert backend.message != "";
    }
  }
}

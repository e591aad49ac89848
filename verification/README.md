# StudyBuddy in Dafny

A model of the core of StudyBuddy, a study-partner matching app. It has an
Express/Mongoose backend and a React client. The model covers seven parts:

- the matcher: scoring, ranking and the top ten;
- the friend-request workflow;
- the user registry: registration, login, the password-free listings and
  the schema's validation;
- the chat message log;
- the bookkeeping of the socket relay in `server.js`;
- the pure logic of the client pages (chat, dashboard, friends, signup,
  profile);
- the session state of the authentication context.

Every handler is a pure function. The database is a set of `seq`s in
insertion order, Mongo's natural order, so a lookup returns the first match.
A backend handler maps a store to a `(Response, store)` pair. A client
handler maps a view state to a new view state. What the database or the
network would decide is a parameter. That covers the id a new document
gets, whether a `save()` succeeds, the JSON reply an awaited call resolves
with, or the exception it throws.

Modules:

| file | module | models |
|---|---|---|
| common.dfy | `Common` | `Option`, the `Response` of a handler, `filter`, `slice`, first-match lookup |
| ranking.dfy | `Ranking` | a stable descending sort by an integer key, and its first `n` |
| user_model.dfy | `UserModel` | `backend/models/User.js` as a validator, plus lookups by id and email |
| user_controller.dfy | `UserController` | `backend/controllers/userController.js` |
| match_controller.dfy | `MatchController` | `findMatches` of `backend/controllers/matchController.js` |
| friend_controller.dfy | `FriendController` | `backend/controllers/friendController.js` |
| message_model.dfy | `MessageModel` | the message document `chatController.js` and `server.js` store |
| chat_controller.dfy | `ChatController` | `backend/controllers/chatController.js` |
| relay.dfy | `Relay` | the socket handlers of `backend/server.js` |
| backend.dfy | `Backend` | the invariants every sequence of REST calls keeps |
| auth_context.dfy | `AuthContext` | `src/contexts/AuthContext.jsx` |
| chat_page.dfy | `ChatPage` | `src/pages/ChatPage.jsx` |
| dashboard_page.dfy | `DashboardPage` | `src/pages/DashboardPage.jsx` |
| friends_page.dfy | `FriendsPage` | `src/pages/FriendsPage.jsx` |
| form.dfy | `Form` | the change handlers shared by the signup and profile forms |
| signup_page.dfy | `SignupPage` | `src/pages/SignupPage.jsx` |
| profile_page.dfy | `ProfilePage` | `src/pages/ProfilePage.jsx` |

Modelling choices:

- **Ids.** Ids are strings. An ObjectId and its string form compare equal.
- **Scores.** A score is computed in exact `real` arithmetic. `Math.round` is
  `floor(x + 1/2)`.
- **NaN.** A term whose two lists are both empty divides `0/0` and gives `NaN`.
  That score is `None`. When any candidate's score is `NaN`, the sort's
  comparator returns `NaN` and the order is left to the engine. The reply is
  then `Unranked`: it is still a 200 with `min(10, candidates)` entries, a
  `None` score standing for JSON `null`. Which entries are kept, and in what
  order, is not claimed. The model keeps store order as one representative.
- **Default sort order.** `Array.prototype.sort()` with no comparator orders
  strings lexicographically. That order is `ChatPage.LexLess`, and it
  compares characters.
- **Falsy values.** JavaScript's `x || default` is written out. An absent
  value and the empty string are both falsy. An array is truthy even when
  empty.

## Model

| member | source | states |
|---|---|---|
| UserModel.Validate | backend/models/User.js:3-41 | the schema paths that fail: `name`, `email`, `password` required and non-empty, `studyStyle` and `academicGoal` absent or one of the five listed values, every `timeSlots` entry one of the five slots; empty exactly when the document is valid |
| UserModel.IndexOfEmail | backend/controllers/userController.js:9 | `findOne({ email })`: absent exactly when no user has the email, otherwise the first user holding it |
| UserModel.IndexOfId | backend/controllers/userController.js:79 | `findById`: absent exactly when no user has the id, otherwise a position holding it |
| UserController.Register | backend/controllers/userController.js:4-30 | a known email gives 400 and no change; a document the schema rejects gives 500 and no change; otherwise 201 and exactly one new user at the end, with the given fields, the password as given and no friends |
| UserController.Login | backend/controllers/userController.js:33-64 | success exactly when the first user with the email has that password; success carries id, name, email, subjects, studyStyle, timeSlots and academicGoal; every failure is the same 400 "Invalid credentials" |
| UserController.LoginSucceedsIffCredentialsMatch | backend/controllers/userController.js:37-60 | with unique emails, login succeeds if and only if some user has both the email and the password |
| UserController.LoginFailuresIndistinguishable | backend/controllers/userController.js:38-47 | a wrong password and an unknown email give identical replies |
| UserController.WithoutPasswordDropsOnlyPassword | backend/controllers/userController.js:69 | the `-password` projection loses only the password: putting it back restores the document |
| UserController.GetAllUsers | backend/controllers/userController.js:67-74 | one entry per user, in order, each the user minus its password |
| UserController.GetUserById | backend/controllers/userController.js:77-87 | 404 exactly when the id is unknown; otherwise the user with that id, minus its password |
| UserController.RegisterKeepsEmailsUnique | backend/models/User.js:8-12 | registration keeps emails unique |
| UserController.RegisterKeepsIdsUnique | backend/controllers/userController.js:15-26 | registration with a fresh id keeps ids distinct |
| UserController.RegisterThenLoginSucceeds | backend/controllers/userController.js:15-60 | logging in with the credentials just registered succeeds and names the new user |
| MatchController.CommonItems | backend/controllers/matchController.js:21-28 | the current user's entries, in their order and multiplicity, that occur in the candidate's list |
| MatchController.RoundHalfUp | backend/controllers/matchController.js:34 | `Math.round`: the integer within half of the value, halves rounded up |
| MatchController.Ratio | backend/controllers/matchController.js:32-33 | a count over its maximum lies in 0..1; 0 for no shared item, 1 when all are shared |
| MatchController.RawScore | backend/controllers/matchController.js:32-34 | the weighted sum 60·subjects + 40·slots lies in 0..100 |
| MatchController.ScoreFromCounts | backend/controllers/matchController.js:31-34 | undefined (`NaN`) exactly when a maximum is 0; otherwise an integer in 0..100 |
| MatchController.Score | backend/controllers/matchController.js:19-34 | a user pair's score is `NaN` exactly when both subject lists or both slot lists are empty, and otherwise lies in 0..100 |
| MatchController.Candidates | backend/controllers/matchController.js:16 | every other user, in store order |
| MatchController.Scored | backend/controllers/matchController.js:19-42 | one entry per candidate, in order, with the candidate's document, the two common lists and the score |
| MatchController.FindMatches | backend/controllers/matchController.js:5-52 | 404 exactly for an unknown user; a ranked reply has at most ten entries, in non-increasing score order, each another stored user scoring 0..100; an unranked reply has `min(10, candidates)` entries drawn without repetition from the scored candidates, each another stored user with its common lists and its (possibly `null`) score |
| MatchController.UnrankedAreOthers | backend/controllers/matchController.js:16-48 | any ten or fewer of the scored candidates, kept in store order, are a sub-multiset of them, each another stored user with its common lists and score |
| MatchController.RawScoredMembers | backend/controllers/matchController.js:16-41 | every entry of the unsorted `matches` array is a candidate, with that candidate's common lists and score |
| MatchController.NoSlotsStillListed | backend/controllers/matchController.js:19-48 | two users with no time slots get a `NaN` score, and the reply still lists the other user, with a `null` score |
| MatchController.FindMatchesUnranked | backend/controllers/matchController.js:14-48 | a known user always gets a 200 reply, unranked exactly when some candidate's score is undefined |
| MatchController.TopIsOthers | backend/controllers/matchController.js:16-48 | every entry of the top ten is another stored user, never the requester, with a score in 0..100 |
| MatchController.AllScoredIff | backend/controllers/matchController.js:16-34 | every candidate has a defined score exactly when every other stored user does |
| MatchController.CommonItemsCount | backend/controllers/matchController.js:21-28 | for a duplicate-free list, the number of shared entries is the size of the intersection of the two lists' elements |
| MatchController.CommonCountSymmetric | backend/controllers/matchController.js:21-28 | two duplicate-free lists share as many entries whichever of them is filtered |
| MatchController.CommonItemsSelf | backend/controllers/matchController.js:21-28 | every entry of a list is shared with the list itself |
| MatchController.DisjointScoresZero | backend/controllers/matchController.js:21-34 | no shared subject or slot, with both maxima positive, scores 0 |
| MatchController.ScoreSymmetric | backend/controllers/matchController.js:21-34 | for duplicate-free lists the score does not depend on whose point of view is taken |
| MatchController.ScoreAsymmetricWithDuplicates | backend/controllers/matchController.js:21-34 | with a duplicated subject, the two points of view give different scores |
| MatchController.IdenticalListsScoreHundred | backend/controllers/matchController.js:21-34 | identical non-empty subject and slot lists score 100 |
| MatchController.WorkedExampleScoresFifty | backend/controllers/matchController.js:21-34 | a concrete pair sharing one of two subjects and one of two slots has those common lists and scores 50 |
| MatchController.UnrankedIffSomeScoreUndefined | backend/controllers/matchController.js:19-45 | a known user's reply is unranked exactly when some candidate's score is `NaN` |
| MatchController.FindMatchesIsStableTopTen | backend/controllers/matchController.js:44-48 | a ranked reply is the first ten of the stable descending sort of all candidates; equal scores keep store order; nobody left out scores above the last entry returned |
| MatchController.FindMatchesExposesPasswords | backend/controllers/matchController.js:16-48 | as written, another user's stored password appears in the reply |
| MatchController.RedactAll | backend/controllers/matchController.js:36-41 | the entries with the password projected away: same length and order, same common lists and scores, each restorable with the password |
| MatchController.RedactAllRaw | backend/controllers/matchController.js:36-41 | unranked entries with the password projected away: same length and order, same common lists and scores, each restorable with the password |
| MatchController.FindMatchesRedacted | backend/controllers/matchController.js:5-52 | the corrected reply: the same 404, ranking, lists and scores as `findMatches`, ranked or unranked, with no password in any entry |
| Ranking.SortDescStable | backend/controllers/matchController.js:45 | the sort is stable: for every score, the entries with that score keep their input order |
| Ranking.TopK | backend/controllers/matchController.js:45-48 | the first `n` of the descending sort: non-increasing, drawn from the input, a prefix of the sorted list, nothing later scoring higher than the last kept |
| Ranking.TopKOmittedNoBetter | backend/controllers/matchController.js:45-48 | no element left out scores above the last one kept |
| FriendController.IndexOfRequest | backend/controllers/friendController.js:80 | `findById` on requests: absent exactly when no request has the id |
| FriendController.SendFriendRequest | backend/controllers/friendController.js:5-54 | guards in order: self request 400, unknown user 404, friends already 400, any request between the two in either direction 400, each leaving the store alone; success exactly when all pass, appending one pending request from sender to receiver |
| FriendController.AddFriend | backend/controllers/friendController.js:98-106 | the id ends up listed, appended only if it was missing; nothing else of the user changes |
| FriendController.AcceptFriendRequest | backend/controllers/friendController.js:75-112 | unknown request 404, non-pending 400, both without change; otherwise the status becomes accepted; it succeeds exactly when both parties exist, and fails with 500 after saving the status otherwise |
| FriendController.RejectFriendRequest | backend/controllers/friendController.js:115-134 | 404 exactly for an unknown request; otherwise that request becomes rejected whatever its status, and nothing else changes |
| FriendController.GetFriendRequests | backend/controllers/friendController.js:57-72 | exactly the requests the user sent or received, in store order |
| FriendController.Populate | backend/controllers/friendController.js:141 | the listed ids that name stored users, in list order, each replaced by that user's view; ids naming nobody are dropped |
| FriendController.PopulateShowsEveryStoredFriend | backend/controllers/friendController.js:141 | every listed id that names a stored user has that user's view in the result |
| FriendController.GetFriends | backend/controllers/friendController.js:137-147 | 404 exactly for an unknown user; otherwise 200 with the populated friend list: in friend-list order, only friends, and a view for every friend who is a stored user |
| FriendController.StatusChangeKeepsOnePerPair | backend/controllers/friendController.js:90-92 | changing a request's status keeps at most one request per pair |
| FriendController.SendKeepsOnePerPair | backend/controllers/friendController.js:27-45 | sending keeps at most one request per unordered pair |
| FriendController.AcceptKeepsOnePerPair | backend/controllers/friendController.js:90-92 | accepting keeps at most one request per pair |
| FriendController.RejectKeepsOnePerPair | backend/controllers/friendController.js:120-124 | rejecting keeps at most one request per pair |
| FriendController.RunKeepsOnePerPair | backend/controllers/friendController.js:27-45 | every sequential run of the three handlers keeps at most one request per unordered pair |
| FriendController.RunKeepsPairs | backend/controllers/friendController.js:90-124 | no handler removes a request or changes the pair it joins |
| FriendController.RequestedPairLockedOut | backend/controllers/friendController.js:27-37 | once two users have a request between them, a new request in either direction is refused for good, even after a rejection |
| FriendController.AcceptMakesFriends | backend/controllers/friendController.js:90-106 | a successful accept lists each party in the other's friends, appends at most one id to each list, and leaves every other user unchanged |
| FriendController.AcceptKeepsFriendListsDuplicateFree | backend/controllers/friendController.js:98-106 | accepting adds no duplicate friend entry |
| FriendController.AddFriendKeepsNoDuplicates | backend/controllers/friendController.js:98-101 | the guarded push keeps a duplicate-free list duplicate-free |
| FriendController.AcceptTwiceRefused | backend/controllers/friendController.js:86-88 | accepting the same request again gives 400 and changes nothing |
| MessageModel.IndexOfMessage | backend/controllers/chatController.js:48 | `findById` on messages: absent exactly when no message has the id |
| ChatController.SendMessage | backend/controllers/chatController.js:4-23 | succeeds exactly when the save does; success appends one unread message with the given sender, receiver and content; failure is 500 and no change |
| ChatController.GetMessages | backend/controllers/chatController.js:26-41 | exactly the messages from a to b and from b to a, in store order |
| ChatController.GetMessagesSymmetric | backend/controllers/chatController.js:30-35 | the conversation is the same list whichever of the two users asks |
| ChatController.GetMessagesExcludesOthers | backend/controllers/chatController.js:30-35 | a message with no receiver, or involving a third user, is never returned |
| ChatController.SentMessageListed | backend/controllers/chatController.js:8-14 | a message just sent from a to b is the last entry of their conversation |
| ChatController.MarkAsRead | backend/controllers/chatController.js:44-62 | 404 exactly for an unknown id; otherwise that message has `read` set and nothing else changes |
| ChatController.MarkAsReadIdempotent | backend/controllers/chatController.js:48-52 | marking a message read twice leaves the same store as once |
| Relay.Keys | backend/server.js:44 | the registered user ids, in insertion order |
| Relay.Lookup | backend/server.js:44 | `connectedUsers.get`: absent exactly when the user has no entry |
| Relay.LookupHolds | backend/server.js:44 | with distinct keys, `get` returns the one socket the user is mapped to |
| Relay.LookupSame | backend/server.js:44 | two registries holding the same entries for a user answer the same for it |
| Relay.UpdateKeepsOthers | backend/server.js:51-54 | overwriting one key's entry changes no other key's socket |
| Relay.AppendKeepsOthers | backend/server.js:51-54 | adding a new key changes no other key's socket |
| Relay.SetEntry | backend/server.js:51-54 | `register_user`: the user maps to this socket, overwriting any earlier entry in place; keys stay distinct; a new key goes last; no other user's socket changes |
| Relay.OverwriteEntry | backend/server.js:51-54 | re-registering a connected user replaces the socket in place: keys and their order unchanged, the user now on the new socket, nobody else affected |
| Relay.AppendEntry | backend/server.js:51-54 | registering a new user adds one key at the end, mapped to the socket, nobody else affected |
| Relay.RemoveSocket | backend/server.js:106-116 | `disconnect`: no matching entry leaves the registry as it is; otherwise exactly the first entry with the socket is deleted |
| Relay.RemoveSocketForgetsOneUser | backend/server.js:110-114 | disconnect forgets exactly the user of the first matching entry; every other user keeps its socket |
| Relay.DeleteForgets | backend/server.js:110-114 | deleting an entry keeps the keys distinct and leaves its user with no socket |
| Relay.DeleteKeepsOthers | backend/server.js:110-114 | deleting an entry leaves every other user's socket as it was |
| Relay.RemoveSocketKeepsLaterRegistration | backend/server.js:110-114 | when one socket registered two users, disconnect forgets the first and keeps the second |
| Relay.RemoveSocketForgets | backend/server.js:106-116 | disconnect keeps the keys distinct |
| Relay.TypeOrText | backend/server.js:74 | the type, falling back to `'text'`: never empty, and a non-empty given type is kept |
| Relay.UrlOrNull | backend/server.js:75 | the url, falling back to `null`: present exactly when a non-empty url was given, and then that url |
| Relay.Others | backend/server.js:62 | `socket.to(room)`: every member of the room except the sending socket |
| Relay.Handle | backend/server.js:51-116 | per event: register sets the user's entry as `Map.set` does (the user maps to the socket, every other user keeps their lookup); join adds the membership and tells the others; send stores one message (sender, content, defaulted type and url, no receiver) and broadcasts it only when the save succeeds; typing and read forward their fields to the others; disconnect deletes exactly the first entry on the socket (the registry is unchanged when there is none) and the memberships of the socket |
| Relay.DisconnectForgetsOnlyUser | backend/server.js:106-116 | a user alone on a socket, and the socket's room membership, are gone after it disconnects |
| Relay.SenderNeverEchoed | backend/server.js:62-103 | no delivery reaches the socket the event came from |
| Backend.EmptyIsGood | backend/models/User.js:3-41 | an empty database has every invariant |
| Backend.RegisterKeepsGood | backend/controllers/userController.js:4-30 | registration with a fresh id keeps the invariants: distinct ids and emails, valid documents, symmetric duplicate-free friend lists naming stored users, requests joining two stored users at most once per pair |
| Backend.SendKeepsGood | backend/controllers/friendController.js:5-54 | sending a request keeps the invariants |
| Backend.StatusChangeKeepsParties | backend/controllers/friendController.js:90-92 | a status change keeps every request's two parties |
| Backend.RejectKeepsGood | backend/controllers/friendController.js:115-134 | rejecting keeps the invariants |
| Backend.AcceptKeepsGood | backend/controllers/friendController.js:75-112 | accepting keeps the invariants, symmetry of friendship included |
| Backend.AcceptKeepsUsersGood | backend/controllers/friendController.js:94-106 | adding the two parties to each other's lists keeps the user invariants and the set of ids |
| Backend.AcceptPairSymmetric | backend/controllers/friendController.js:94-106 | after accepting, each user lists another exactly when the other lists them |
| Backend.ApplyKeepsGood | backend/controllers/friendController.js:5-134 | every single REST call keeps the invariants |
| Backend.ApplyAllKeepsGood | backend/controllers/friendController.js:5-134 | every sequence of REST calls with fresh new-user ids keeps the invariants |
| Backend.RelayMessagesNotListed | backend/server.js:71-77 | a message saved by the relay has no receiver, so no conversation listing returns it |
| AuthContext.SelfId | src/pages/ChatPage.jsx:45 | the user's own id: the Mongo id when present and non-empty, the login id otherwise |
| AuthContext.Login | src/contexts/AuthContext.jsx:19-38 | the user is set exactly when the reply has one; otherwise the error is the reply's message, or the fixed string if the call throws, and the user is kept; loading ends in every case |
| AuthContext.Signup | src/contexts/AuthContext.jsx:40-66 | a reply without `_id` fails with its message and no login call; with `_id`, one login with the same email and password follows; the result is `undefined` exactly when that login answers without a user |
| AuthContext.SignupCanReturnUndefined | src/contexts/AuthContext.jsx:51-56 | a concrete registration plus an error-bodied login make `signup` return `undefined` |
| AuthContext.SignupCorrected | src/contexts/AuthContext.jsx:40-66 | always returns a result; equal to the written `signup` wherever that returns one, and a failure with the login reply's message where it returned `undefined` |
| AuthContext.Logout | src/contexts/AuthContext.jsx:68-71 | the user is cleared; loading and error are untouched |
| AuthContext.LoginAgainstBackend | src/contexts/AuthContext.jsx:19-38 | against `loginUser`: success exactly when the credentials match the first user with the email, the session id being that user's id; otherwise "Invalid credentials" and the user kept |
| AuthContext.SignupAgainstBackend | src/contexts/AuthContext.jsx:40-66 | against `registerUser` and `loginUser`: signup succeeds exactly when registration does, the session names the new id, and a refused registration reports the backend's message without a login |
| ChatPage.LexLessTotal | src/pages/ChatPage.jsx:48 | of two different strings exactly one sorts first |
| ChatPage.LexLessIrreflexive | src/pages/ChatPage.jsx:48 | no string sorts before itself |
| ChatPage.Sort2 | src/pages/ChatPage.jsx:48 | `[a, b].sort()`: the same two strings, in ascending order |
| ChatPage.RoomId | src/pages/ChatPage.jsx:48 | `"chat_"` followed by the two ids in ascending order, joined by `"_"` |
| ChatPage.RoomIdSymmetric | src/pages/ChatPage.jsx:48 | swapping the two ids gives the same room |
| ChatPage.Connect | src/pages/ChatPage.jsx:38-50 | with a user, emits `register_user` and then `join_room` with the room of the pair; without one, nothing |
| ChatPage.HandleSend | src/pages/ChatPage.jsx:110-136 | a blank input, no socket or no user changes nothing; otherwise one own message is appended, one `send_message` and one typing-off are emitted to the room, and the input is cleared |
| ChatPage.Receive | src/pages/ChatPage.jsx:52-62 | a received message is appended at the end as the buddy's; earlier messages stay |
| ChatPage.OnBuddyTyping | src/pages/ChatPage.jsx:65-67 | the buddy-typing flag takes the event's value; nothing else changes |
| ChatPage.OnInput | src/pages/ChatPage.jsx:216-228 | the input takes the text; with a socket and a user, one typing-on is emitted to the room |
| ChatPage.OneRoomPerChat | src/pages/ChatPage.jsx:48-49 | join, typing and send on one page all name the same room |
| ChatPage.PartnersShareRoom | src/pages/ChatPage.jsx:48-49 | two users opening a chat with each other join the same room |
| DashboardPage.OrEmpty | src/pages/DashboardPage.jsx:29-31 | an optional string falling back to `''`: the string when present, otherwise empty |
| DashboardPage.BuddyId | src/pages/DashboardPage.jsx:26 | a card's id: the reply user's `_id` when present and non-empty, its `id` otherwise |
| DashboardPage.ToBuddy | src/pages/DashboardPage.jsx:25-34 | one card from one match: `mutualSubjects` is the common-subject count (0 if absent) and a missing score reads 0 |
| DashboardPage.Transform | src/pages/DashboardPage.jsx:25-34 | one card per match, same count and order |
| DashboardPage.TopMatches | src/pages/DashboardPage.jsx:137-139 | at most three cards, in non-increasing score order, drawn from the list, which is left as it was |
| DashboardPage.TopMatchesOmitNoBetter | src/pages/DashboardPage.jsx:137-139 | no card left out scores above the last card shown |
| DashboardPage.Cards | src/pages/DashboardPage.jsx:25-34 | one card per reply entry, in order |
| DashboardPage.CardsOfOrderedReply | src/pages/DashboardPage.jsx:25-34 | the cards of an ordered reply carry its ids, scores and shared subject counts, and their top three are their first three |
| DashboardPage.TopMatchesAreServerFirstThree | src/pages/DashboardPage.jsx:137-139 | against the matcher, the top three cards are the first three entries of its reply |
| DashboardPage.HandleConnect | src/pages/DashboardPage.jsx:88-134 | a reply with a message is a failure showing it; else one with an `_id` is sent; else a failure with a fixed message; a thrown call is a network failure; only the buddy's status entry changes |
| DashboardPage.ConnectAgainstBackend | src/pages/DashboardPage.jsx:94-109 | against `sendFriendRequest`, the card says sent exactly when the backend stored the request, and otherwise shows the backend's reason |
| FriendsPage.AcceptLocal | src/pages/FriendsPage.jsx:47-49 | the request with the id reads accepted; length and every other request unchanged |
| FriendsPage.RejectLocal | src/pages/FriendsPage.jsx:65 | exactly the requests with the id are gone; the others keep their order |
| FriendsPage.Pending | src/pages/FriendsPage.jsx:137-139 | the badge count and the list are exactly the pending requests, in order |
| FriendsPage.AcceptLeavesPending | src/pages/FriendsPage.jsx:47-49 | accepting takes the request off the pending list and leaves the rest of it as it was |
| FriendsPage.RejectLeavesPending | src/pages/FriendsPage.jsx:65 | rejecting leaves the same pending list as accepting |
| FriendsPage.Counterpart | src/pages/FriendsPage.jsx:168-181 | the receiver and "Request sent" when the user sent the request, the sender and "Sent you a request" otherwise |
| FriendsPage.ActionsOnlyOnReceived | src/pages/FriendsPage.jsx:186 | Accept and Reject show exactly on received requests, whose card names the sender |
| FriendsPage.ShownAll | src/pages/FriendsPage.jsx:159-163 | the stored requests as the page holds them, one for one |
| FriendsPage.SetStatus | backend/controllers/friendController.js:90-92 | the request with the id gets the status; nothing else changes |
| FriendsPage.SetStatusFilterInvolving | backend/controllers/friendController.js:61-66 | changing a status and listing a user's requests commute |
| FriendsPage.ShownAccept | src/pages/FriendsPage.jsx:47-49 | marking a request accepted on the server and on the page give the same list |
| FriendsPage.LocalAcceptAgreesWithBackend | src/pages/FriendsPage.jsx:42-49 | after a successful accept, the page's local update equals the list a fresh fetch would return |
| Form.HandleChange | src/pages/SignupPage.jsx:41-47 | the named field holds the new text; every other field is unchanged |
| Form.Toggle | src/pages/SignupPage.jsx:49-56 | checking appends the value at the end; unchecking removes every occurrence and keeps the rest in order |
| Form.HandleMultiSelect | src/pages/ProfilePage.jsx:47-55 | only the named list changes, to its toggled value |
| Form.HandleChangeKeepsShape | src/pages/ProfilePage.jsx:39-45 | a text edit keeps every text field text and every list field a list |
| Form.HandleMultiSelectKeepsShape | src/pages/SignupPage.jsx:49-57 | a checkbox change keeps the shape of the form |
| Form.ToggleRoundTrip | src/pages/SignupPage.jsx:53-55 | checking a clear box and clearing it again restores the list |
| Form.UncheckIdempotent | src/pages/SignupPage.jsx:55 | clearing twice is clearing once |
| Form.CheckThenUncheck | src/pages/SignupPage.jsx:53-55 | checking then clearing leaves what clearing alone leaves |
| Form.RemoveAllAbsent | src/pages/SignupPage.jsx:55 | filtering out an absent value changes nothing |
| Form.RemoveAllAppended | src/pages/SignupPage.jsx:53-55 | filtering a value out of a list that ends with it is filtering it out of the rest |
| SignupPage.InitialForm | src/pages/SignupPage.jsx:9-18 | six empty text fields and two empty lists, and nothing else |
| SignupPage.PayloadRoundTrip | src/pages/SignupPage.jsx:69-77 | the seven fields of any payload survive the trip through a form, whatever the confirmation |
| SignupPage.PayloadIgnoresConfirm | src/pages/SignupPage.jsx:69-77 | the confirmation field does not reach the payload |
| SignupPage.AfterSignup | src/pages/SignupPage.jsx:79-86 | to the dashboard exactly on success; an `undefined` result throws |
| SignupPage.Submit | src/pages/SignupPage.jsx:59-87 | differing passwords call nothing; otherwise signup runs with the form's email and password, and the page reaches the dashboard exactly when registration and the follow-up login both succeed |
| SignupPage.SubmitCorrected | src/pages/SignupPage.jsx:59-87 | with the corrected `signup` the page never throws, reaches the dashboard in the same cases, and behaves as written wherever that did not throw |
| SignupPage.SubmitCanThrow | src/pages/SignupPage.jsx:79-81 | a concrete matching form, successful registration and user-less login reply make the page throw |
| SignupPage.AcceptedPayloadRegisters | src/pages/SignupPage.jsx:27-39 | the page's option lists match the schema's enums, so every form the browser lets through registers a new email with 201 |
| ProfilePage.TextOr | src/pages/ProfilePage.jsx:9-14 | an optional field falling back to `''`: the text when present, and a non-empty result is the user's value |
| ProfilePage.MakeData | src/pages/ProfilePage.jsx:8-16 | the seven profile fields with the given values and an empty picture |
| ProfilePage.InitialData | src/pages/ProfilePage.jsx:8-16 | for a user, exactly their name, email, study style and goal, each `''` when absent, their lists or `[]`, and an empty picture; with no user, everything empty |
| ProfilePage.InitialDataShowsLoginUser | src/pages/ProfilePage.jsx:8-16 | for a user who logged in, the form shows exactly the login reply's name, email, lists and selects |
| ProfilePage.Initial | src/pages/ProfilePage.jsx:6-16 | the page starts out of editing mode with a well-shaped form |
| ProfilePage.ToggleEditing | src/pages/ProfilePage.jsx:82 | the Edit button flips the mode and keeps the form |
| ProfilePage.HandleSave | src/pages/ProfilePage.jsx:57-61 | saving leaves editing mode and keeps the form as it is |
| ProfilePage.SaveKeepsEdits | src/pages/ProfilePage.jsx:39-61 | after any text edit and box change, saving keeps the edited values |

## Left out

- Persistence is not modelled. That covers Mongoose's `save`, `populate`,
  `findByIdAndUpdate`, `$or` queries, connection failures, `CastError` on a
  malformed id, and the 500 replies of the read handlers. Stores are `seq`s,
  and save outcomes are parameters where the code branches on them.
- The `FriendRequest` and `Message` model files are not part of this model.
  Their defaults are taken from how the code uses them: a new request is
  `pending`, and a new message is unread.
- Concurrency is not modelled. That includes the check-then-save race in
  `sendFriendRequest` and socket.io's transport, ordering and delivery. Runs
  are sequential, and a broadcast is an append to an outbox.
- Floating point is not modelled. The score is exact, so float rounding at a
  `.5` boundary is not reproduced.
- MatchController.FindMatches: when a score is `NaN`, which ten entries the
  engine's sort keeps, and their order, is not modelled. The model keeps
  store order, and its contract on such a reply does not depend on order.
- Sort order: JavaScript's default sort compares UTF-16 code units, but
  `ChatPage.LexLess` compares characters. The two agree on ids made of
  ASCII characters, as ObjectIds are.
- Timers are not modelled: `setTimeout` clears on the dashboard, and the
  delayed typing-off on the chat page.
- `Date.now()` message ids and `toLocaleTimeString` are parameters of the
  chat page.
- `localStorage`, navigation, rendering and theme are not modelled.
- `src/services/api.js` exports only `registerUser`, `loginUser`,
  `findMatches`, `sendMessage` and `getMessages` (api.js:1-50). It has no
  `sendFriendRequest`, `getFriendRequests`, `acceptFriendRequest`,
  `rejectFriendRequest` or `getFriends`. `DashboardPage.jsx:5` and
  `FriendsPage.jsx:4` import these names. An ES module import of a missing
  export fails when the module is linked. `App.jsx:6` imports the dashboard,
  so the client as written does not load. The model gives these calls the
  shape of the other `api.js` wrappers: a `fetch` whose `response.json()`
  is returned. Under that assumption, `DashboardPage.ConnectAgainstBackend`
  and `FriendsPage.LocalAcceptAgreesWithBackend` take the reply to be the
  backend handler's JSON body. The friends page's accept ignores the reply,
  and it is modelled so.
- No route renders the friends page. `App.jsx:35-42` routes `/`, `/signup`,
  `/login`, `/dashboard`, `/profile` and `/chat/:buddyId`, so the dashboard's
  `navigate('/friends')` (`DashboardPage.jsx:164`) matches no route. The
  friends page is modelled as if it were mounted.
- The dashboard's fetch of matches and its error screen are not modelled.
  `DashboardPage.HandleConnect` records the error message, and the
  rendering that replaces the cards with it is left out.
- Form.HandleMultiSelect: requires that the named field holds a list. Both
  pages only call it for `subjects` and `timeSlots`, which always do. On any
  other field, the spread and `filter` would behave differently or throw.
- ProfilePage.HandleSave: nothing is sent to the backend and Cancel does
  not revert edits, as in the page. No profile update route is modelled.
- `getMatches` and the `Match` model are not modelled. The routes, the
  `api.js` wrappers, the landing and login pages, and the test scripts are
  not modelled either.
- The chat page's mock buddy and mock history are not modelled.

## Findings

| source | as written | input that shows it | evidently intended | confidence | as-written member | corrected member |
|---|---|---|---|---|---|---|
| backend/controllers/matchController.js:16-48 | `User.find` loads whole documents, and each match returns `user` as loaded, password included | any store with two users whose lists make the score defined; the other user's password is in the reply | the candidates projected without `password`, as `getAllUsers` and `getUserById` do (userController.js:69, 79) | not executed | MatchController.FindMatchesExposesPasswords | MatchController.FindMatchesRedacted |
| src/contexts/AuthContext.jsx:45-59 | when registration succeeds but the login reply has no `user`, `signup` falls through and returns `undefined`; `SignupPage` then reads `result.success` and throws (SignupPage.jsx:81) | register reply `{ _id: "65f0c1" }`, then login reply `{ message: "Error logging in" }`, the body of `loginUser`'s 500 | a failure result carrying the login reply's message | not executed | AuthContext.SignupCanReturnUndefined | AuthContext.SignupCorrected |

/** `findMatches` of `backend/controllers/matchController.js`: score every
    other user against the current one by shared subjects (60%) and shared
    time slots (40%), rank by score, keep the best ten. The score is computed
    in exact rationals; `Math.round` is `floor(x + 1/2)`. */
module MatchController {
  import opened Common
  import opened UserModel
  import Ranking
  import UC = UserController

  /** One entry of the reply: the candidate's whole document, what the two
      users share, and the rounded score. */
  datatype Match = Match(user: User, commonSubjects: seq<string>, commonTimeSlots: seq<string>, score: int)

  /** An entry whose score may be `NaN`, which the JSON reply writes as
      `null` and this model as `None`. */
  datatype RawMatch = RawMatch(user: User, commonSubjects: seq<string>, commonTimeSlots: seq<string>,
                               score: Option<int>)

  /** The reply body. `Unranked` is the reply for a population in which some
      score is `NaN` (both users have an empty subject list, or both an empty
      slot list): the comparator then answers `NaN`, the order
      `Array.prototype.sort` leaves is implementation-defined, and so is
      which ten entries the slice keeps. */
  datatype MatchList = Ranked(top: seq<Match>) | Unranked(entries: seq<RawMatch>)

  const MaxMatches: nat := 10
  const SubjectWeight: real := 60.0
  const SlotWeight: real := 40.0

  /** `mine.filter(x => theirs.includes(x))`: the current user's entries, in
      their order and multiplicity, that the candidate also lists. */
  function CommonItems(mine: seq<string>, theirs: seq<string>): (r: seq<string>)
    ensures |r| <= |mine|
    ensures IsSubseq(r, mine)
    ensures forall x :: multiset(r)[x] == if x in theirs then multiset(mine)[x] else 0
  {
    Filter(mine, SharedWith(theirs))
  }

  /** `x => theirs.includes(x)`. */
  function SharedWith(theirs: seq<string>): string -> bool
  {
    x => x in theirs
  }

  /** `Math.round`: the nearest integer, halves rounded up. */
  function RoundHalfUp(x: real): (n: int)
    ensures n as real - 0.5 <= x < n as real + 0.5
  {
    (x + 0.5).Floor
  }

  /** `k / m` for a count `k` out of at most `m`. */
  function Ratio(k: nat, m: nat): (q: real)
    requires 0 < m && k <= m
    ensures 0.0 <= q <= 1.0
    ensures k == 0 ==> q == 0.0
    ensures k == m ==> q == 1.0
  {
    var q := k as real / m as real;
    RatioBounds(k, m);
    q
  }

  lemma RatioBounds(k: nat, m: nat)
    requires 0 < m && k <= m
    ensures 0.0 <= k as real / m as real <= 1.0
  {
    var q := k as real / m as real;
    assert q * m as real == k as real;
    assert (1.0 - q) * m as real == (m - k) as real;
    NonNegativeFactor(q, m as real);
    NonNegativeFactor(1.0 - q, m as real);
  }

  /** A product with a positive factor is non-negative only if the other
      factor is. */
  lemma NonNegativeFactor(x: real, y: real)
    requires y > 0.0 && x * y >= 0.0
    ensures x >= 0.0
  {
    assert x < 0.0 ==> x * y < 0.0;
  }

  /** The unrounded score of one candidate given the four list lengths that
      matter; undefined (`NaN`) when a maximum is zero. */
  function RawScore(common: nat, subjectsMax: nat, commonSlots: nat, slotsMax: nat): (x: real)
    requires 0 < subjectsMax && common <= subjectsMax
    requires 0 < slotsMax && commonSlots <= slotsMax
    ensures 0.0 <= x <= 100.0
  {
    Ratio(common, subjectsMax) * SubjectWeight + Ratio(commonSlots, slotsMax) * SlotWeight
  }

  /** The rounded score from the four list lengths that matter: shared
      subjects out of the larger subject list, shared slots out of the larger
      slot list. `None` stands for `NaN` (`0 / 0`). */
  function ScoreFromCounts(common: nat, subjectsMax: nat, commonSlots: nat, slotsMax: nat): (r: Option<int>)
    requires common <= subjectsMax && commonSlots <= slotsMax
    ensures r.None? <==> subjectsMax == 0 || slotsMax == 0
    ensures r.Some? ==> 0 <= r.value <= 100
  {
    if subjectsMax == 0 || slotsMax == 0 then None
    else Some(RoundHalfUp(RawScore(common, subjectsMax, commonSlots, slotsMax)))
  }

  /** `compatibilityScore` of `other` seen from `me`, or `None` for `NaN`. */
  function Score(me: User, other: User): (r: Option<int>)
    ensures r.None? <==> Max(|me.subjects|, |other.subjects|) == 0 || Max(|me.timeSlots|, |other.timeSlots|) == 0
    ensures r.Some? ==> 0 <= r.value <= 100
  {
    ScoreFromCounts(|CommonItems(me.subjects, other.subjects)|, Max(|me.subjects|, |other.subjects|),
                    |CommonItems(me.timeSlots, other.timeSlots)|, Max(|me.timeSlots|, |other.timeSlots|))
  }

  /** `User.find({ _id: { $ne: userId } })`: everybody else, in store order. */
  function Candidates(users: seq<User>, userId: Id): (r: seq<User>)
    ensures forall u :: u in r <==> u in users && u.id != userId
    ensures IsSubseq(r, users)
  {
    Filter(users, (u: User) => u.id != userId)
  }

  predicate AllScored(me: User, cands: seq<User>)
  {
    forall i :: 0 <= i < |cands| ==> Score(me, cands[i]).Some?
  }

  /** The unsorted `matches` array: one entry per candidate, in order. */
  function Scored(me: User, cands: seq<User>): (r: seq<Match>)
    requires AllScored(me, cands)
    ensures |r| == |cands|
    ensures forall i :: 0 <= i < |r| ==>
              && r[i].user == cands[i]
              && r[i].commonSubjects == CommonItems(me.subjects, cands[i].subjects)
              && r[i].commonTimeSlots == CommonItems(me.timeSlots, cands[i].timeSlots)
              && Some(r[i].score) == Score(me, cands[i])
  {
    seq(|cands|, i requires 0 <= i < |cands| =>
      Match(cands[i], CommonItems(me.subjects, cands[i].subjects),
            CommonItems(me.timeSlots, cands[i].timeSlots), Score(me, cands[i]).value))
  }

  function ByScore(m: Match): int
  {
    m.score
  }

  /** The unsorted `matches` array when some score may be `NaN`. */
  function RawScored(me: User, cands: seq<User>): (r: seq<RawMatch>)
    ensures |r| == |cands|
    ensures forall i :: 0 <= i < |r| ==>
              r[i] == RawMatch(cands[i], CommonItems(me.subjects, cands[i].subjects),
                               CommonItems(me.timeSlots, cands[i].timeSlots), Score(me, cands[i]))
  {
    seq(|cands|, i requires 0 <= i < |cands| =>
      RawMatch(cands[i], CommonItems(me.subjects, cands[i].subjects),
               CommonItems(me.timeSlots, cands[i].timeSlots), Score(me, cands[i])))
  }

  /** `findMatches`: 404 for an unknown user; otherwise the ten best
      candidates, best first, ties in store order. When some score is `NaN`
      the reply still holds ten candidates, or all of them when there are
      fewer, each with its shared lists and score; only which ten, and their
      order, are left to the engine. The model keeps store order there. */
  function FindMatches(users: seq<User>, userId: Id): (r: Response<MatchList>)
    ensures r.Error? <==> !HasId(users, userId)
    ensures r.Error? ==> r == Error(404, "User not found")
    ensures r.Ok? ==> r.status == 200
    ensures r.Ok? && r.body.Ranked? ==>
              var top := r.body.top;
              && |top| <= MaxMatches
              && Ranking.NonIncreasing(top, ByScore)
              && forall m :: m in top ==>
                   && m.user in users
                   && m.user.id != userId
                   && 0 <= m.score <= 100
    ensures r.Ok? && r.body.Unranked? ==>
              var me := Me(users, userId);
              var entries := r.body.entries;
              && |entries| == Min(MaxMatches, |Candidates(users, userId)|)
              && multiset(entries) <= multiset(RawScored(me, Candidates(users, userId)))
              && forall e :: e in entries ==>
                   && e.user in users
                   && e.user.id != userId
                   && e.commonSubjects == CommonItems(me.subjects, e.user.subjects)
                   && e.commonTimeSlots == CommonItems(me.timeSlots, e.user.timeSlots)
                   && e.score == Score(me, e.user)
  {
    match IndexOfId(users, userId)
    case None => Error(404, "User not found")
    case Some(i) =>
      var me := users[i];
      var cands := Candidates(users, userId);
      if !AllScored(me, cands) then
        UnrankedAreOthers(users, userId, me);
        Ok(200, Unranked(Take(RawScored(me, cands), MaxMatches)))
      else
        var all := Scored(me, cands);
        var top := Ranking.TopK(all, ByScore, MaxMatches);
        TopIsOthers(users, userId, me);
        Ok(200, Ranked(top))
  }

  /** Every entry of the top ten is some other user with a score in range. */
  lemma TopIsOthers(users: seq<User>, userId: Id, me: User)
    requires AllScored(me, Candidates(users, userId))
    ensures forall m :: m in Ranking.TopK(Scored(me, Candidates(users, userId)), ByScore, MaxMatches) ==>
              && m.user in users
              && m.user.id != userId
              && 0 <= m.score <= 100
  {
    var cands := Candidates(users, userId);
    var all := Scored(me, cands);
    var top := Ranking.TopK(all, ByScore, MaxMatches);
    forall m | m in top
      ensures m.user in users && m.user.id != userId && 0 <= m.score <= 100
    {
      assert m in multiset(all);
      var k :| 0 <= k < |all| && all[k] == m;
      assert m.user == cands[k];
    }
  }

  /** Any ten of the unsorted entries are other users, each with its shared
      lists and score. */
  lemma UnrankedAreOthers(users: seq<User>, userId: Id, me: User)
    ensures var all := RawScored(me, Candidates(users, userId));
            && multiset(Take(all, MaxMatches)) <= multiset(all)
            && forall e :: e in Take(all, MaxMatches) ==>
                 && e.user in users
                 && e.user.id != userId
                 && e.commonSubjects == CommonItems(me.subjects, e.user.subjects)
                 && e.commonTimeSlots == CommonItems(me.timeSlots, e.user.timeSlots)
                 && e.score == Score(me, e.user)
  {
    var cands := Candidates(users, userId);
    var all := RawScored(me, cands);
    TakeFromWhole(all, MaxMatches);
    RawScoredMembers(me, cands);
  }

  /** Every unsorted entry is a candidate with its shared lists and score. */
  lemma RawScoredMembers(me: User, cands: seq<User>)
    ensures forall e :: e in RawScored(me, cands) ==>
              && e.user in cands
              && e.commonSubjects == CommonItems(me.subjects, e.user.subjects)
              && e.commonTimeSlots == CommonItems(me.timeSlots, e.user.timeSlots)
              && e.score == Score(me, e.user)
  {
    var all := RawScored(me, cands);
    forall e | e in all
      ensures e.user in cands
    {
      var k :| 0 <= k < |all| && all[k] == e;
      assert e.user == cands[k];
    }
  }

  /** The distinct entries of a list. */
  function Elements(xs: seq<string>): set<string>
  {
    set x | x in xs
  }

  predicate NoDuplicates(xs: seq<string>)
  {
    forall i, j :: 0 <= i < j < |xs| ==> xs[i] != xs[j]
  }

  /** For a duplicate-free list, the number of shared entries is the size of
      the set intersection, whichever list is filtered. */
  lemma {:induction false} CommonItemsCount(mine: seq<string>, theirs: seq<string>)
    requires NoDuplicates(mine)
    ensures |CommonItems(mine, theirs)| == |Elements(mine) * Elements(theirs)|
    decreases |mine|
  {
    if |mine| == 0 {
      assert Elements(mine) == {};
    } else {
      var h, t := mine[0], mine[1..];
      assert NoDuplicates(t);
      assert h !in t;
      CommonItemsCount(t, theirs);
      SplitHead(mine);
      CommonItemsCountStep(h, t, theirs);
    }
  }

  lemma CommonItemsCons(h: string, t: seq<string>, theirs: seq<string>)
    ensures CommonItems([h] + t, theirs) == (if h in theirs then [h] else []) + CommonItems(t, theirs)
  {
    FilterCons(h, t, SharedWith(theirs));
  }

  lemma CommonItemsCountStep(h: string, t: seq<string>, theirs: seq<string>)
    requires h !in t
    requires |CommonItems(t, theirs)| == |Elements(t) * Elements(theirs)|
    ensures |CommonItems([h] + t, theirs)| == |Elements([h] + t) * Elements(theirs)|
  {
    CommonItemsCons(h, t, theirs);
    ElementsCons(h, t);
    IntersectCons(h, Elements(t), Elements(theirs));
  }

  lemma ElementsCons(h: string, t: seq<string>)
    ensures Elements([h] + t) == {h} + Elements(t)
  {
  }

  /** Adding a fresh element to one side grows the intersection by one
      exactly when the other side has it. */
  lemma IntersectCons(h: string, a: set<string>, b: set<string>)
    requires h !in a
    ensures |({h} + a) * b| == if h in b then |a * b| + 1 else |a * b|
  {
    if h in b {
      assert ({h} + a) * b == {h} + a * b;
    } else {
      assert ({h} + a) * b == a * b;
    }
  }

  /** Every entry of a list is shared with the list itself. */
  lemma CommonItemsSelf(xs: seq<string>)
    ensures |CommonItems(xs, xs)| == |xs|
  {
    var r := CommonItems(xs, xs);
    assert multiset(r) == multiset(xs);
    assert |multiset(r)| == |r|;
  }

  /** Two users with no subject and no time slot in common score 0, provided
      the score is defined. */
  lemma DisjointScoresZero(me: User, other: User)
    requires forall s :: s in me.subjects ==> s !in other.subjects
    requires forall s :: s in me.timeSlots ==> s !in other.timeSlots
    requires Max(|me.subjects|, |other.subjects|) > 0 && Max(|me.timeSlots|, |other.timeSlots|) > 0
    ensures Score(me, other) == Some(0)
  {
    assert CommonItems(me.subjects, other.subjects) == [];
    assert CommonItems(me.timeSlots, other.timeSlots) == [];
  }

  /** With duplicate-free lists the score does not depend on whose point of
      view it is computed from. */
  lemma ScoreSymmetric(a: User, b: User)
    requires NoDuplicates(a.subjects) && NoDuplicates(b.subjects)
    requires NoDuplicates(a.timeSlots) && NoDuplicates(b.timeSlots)
    ensures Score(a, b) == Score(b, a)
  {
    CommonCountSymmetric(a.subjects, b.subjects);
    CommonCountSymmetric(a.timeSlots, b.timeSlots);
    var cs, ct := |CommonItems(a.subjects, b.subjects)|, |CommonItems(a.timeSlots, b.timeSlots)|;
    var ms, mt := Max(|a.subjects|, |b.subjects|), Max(|a.timeSlots|, |b.timeSlots|);
    assert Score(a, b) == ScoreFromCounts(cs, ms, ct, mt);
    assert Score(b, a) == ScoreFromCounts(cs, ms, ct, mt);
  }

  /** Duplicate-free lists share as many entries whichever one is filtered. */
  lemma CommonCountSymmetric(x: seq<string>, y: seq<string>)
    requires NoDuplicates(x) && NoDuplicates(y)
    ensures |CommonItems(x, y)| == |CommonItems(y, x)|
  {
    CommonItemsCount(x, y);
    CommonItemsCount(y, x);
    assert Elements(x) * Elements(y) == Elements(y) * Elements(x);
  }

  /** With duplicates the symmetry fails: listing one subject twice counts it
      twice from one side only. */
  lemma ScoreAsymmetricWithDuplicates()
    ensures var a := User("a", "A", "a@x", "p", ["Physics", "Physics"], None, ["Morning (6AM-10AM)"], None, None, []);
            var b := User("b", "B", "b@x", "p", ["Physics"], None, ["Morning (6AM-10AM)"], None, None, []);
            Score(a, b) == Some(100) && Score(b, a) == Some(70)
  {
    var a := User("a", "A", "a@x", "p", ["Physics", "Physics"], None, ["Morning (6AM-10AM)"], None, None, []);
    var b := User("b", "B", "b@x", "p", ["Physics"], None, ["Morning (6AM-10AM)"], None, None, []);
    assert CommonItems(a.subjects, b.subjects) == ["Physics", "Physics"];
    assert CommonItems(b.subjects, a.subjects) == ["Physics"];
    assert CommonItems(a.timeSlots, b.timeSlots) == ["Morning (6AM-10AM)"];
    assert CommonItems(b.timeSlots, a.timeSlots) == ["Morning (6AM-10AM)"];
    assert RoundHalfUp(70.0) == 70;
    assert RoundHalfUp(100.0) == 100;
  }

  /** Identical non-empty subject and slot lists score exactly 100. */
  lemma IdenticalListsScoreHundred(a: User, b: User)
    requires a.subjects == b.subjects && a.timeSlots == b.timeSlots
    requires |a.subjects| > 0 && |a.timeSlots| > 0
    ensures Score(a, b) == Some(100)
  {
    CommonItemsSelf(a.subjects);
    CommonItemsSelf(a.timeSlots);
    assert RoundHalfUp(100.0) == 100;
  }

  /** The worked example: subjects [Mathematics, Physics] against
      [Physics, Chemistry], slot [Morning] against [Morning, Evening]:
      round(60 * 1/2 + 40 * 1/2) = 50. */
  lemma WorkedExampleScoresFifty()
    ensures var a := User("a", "A", "a@x", "p", ["Mathematics", "Physics"], None, ["Morning (6AM-10AM)"], None, None, []);
            var b := User("b", "B", "b@x", "p", ["Physics", "Chemistry"], None, ["Morning (6AM-10AM)", "Evening (6PM-10PM)"], None, None, []);
            && CommonItems(a.subjects, b.subjects) == ["Physics"]
            && CommonItems(a.timeSlots, b.timeSlots) == ["Morning (6AM-10AM)"]
            && Score(a, b) == Some(50)
  {
    var a := User("a", "A", "a@x", "p", ["Mathematics", "Physics"], None, ["Morning (6AM-10AM)"], None, None, []);
    var b := User("b", "B", "b@x", "p", ["Physics", "Chemistry"], None, ["Morning (6AM-10AM)", "Evening (6PM-10PM)"], None, None, []);
    assert "Mathematics" !in b.subjects;
    assert CommonItems(a.subjects, b.subjects) == ["Physics"];
    assert CommonItems(a.timeSlots, b.timeSlots) == ["Morning (6AM-10AM)"];
    assert RawScore(1, 2, 1, 2) == 50.0;
    assert RoundHalfUp(50.0) == 50;
  }

  /** The current user of a `findMatches` call that got past the 404. */
  function Me(users: seq<User>, userId: Id): User
    requires HasId(users, userId)
  {
    users[IndexOfId(users, userId).value]
  }

  /** The reply is `Unranked` exactly when some other user's score with the
      current user is `NaN`. */
  lemma UnrankedIffSomeScoreUndefined(users: seq<User>, userId: Id)
    requires HasId(users, userId)
    ensures FindMatches(users, userId).Ok?
    ensures FindMatches(users, userId).body.Unranked? <==>
              exists u :: u in users && u.id != userId && Score(Me(users, userId), u).None?
  {
    FindMatchesUnranked(users, userId);
    AllScoredIff(Me(users, userId), users, userId);
  }

  /** Every candidate is scored exactly when every other user is. */
  lemma AllScoredIff(me: User, users: seq<User>, userId: Id)
    ensures AllScored(me, Candidates(users, userId)) <==>
              !exists u :: u in users && u.id != userId && Score(me, u).None?
  {
    var cands := Candidates(users, userId);
    if exists u :: u in users && u.id != userId && Score(me, u).None? {
      var u :| u in users && u.id != userId && Score(me, u).None?;
      assert u in cands;
      var j :| 0 <= j < |cands| && cands[j] == u;
    }
    if !AllScored(me, cands) {
      var j :| 0 <= j < |cands| && Score(me, cands[j]).None?;
      assert cands[j] in cands;
    }
  }

  /** Two users who both left every time-slot box unchecked have a `NaN`
      score, and the reply still lists the other user, with a `null`
      score. */
  lemma NoSlotsStillListed(me: User, other: User)
    requires me.id != other.id
    requires |me.timeSlots| == 0 && |other.timeSlots| == 0
    ensures var r := FindMatches([me, other], me.id);
            && r.Ok? && r.body.Unranked?
            && |r.body.entries| > 0
            && forall e :: e in r.body.entries ==> e.user == other && e.score.None?
  {
    var users := [me, other];
    PairMe(me, other);
    var cands := Candidates(users, me.id);
    assert other in cands;
    var j :| 0 <= j < |cands| && cands[j] == other;
    assert Score(me, cands[j]).None?;
    FindMatchesUnranked(users, me.id);
    var r := FindMatches(users, me.id);
    assert |r.body.entries| == Min(MaxMatches, |cands|);
    forall e | e in r.body.entries
      ensures e.user == other && e.score.None?
    {
      PairEntry(me, other, e);
    }
  }

  /** An entry about someone other than `me` in a store of two is about the
      other user, and with no time slots on either side it is unscored. */
  lemma PairEntry(me: User, other: User, e: RawMatch)
    requires me.id != other.id
    requires |me.timeSlots| == 0 && |other.timeSlots| == 0
    requires e.user in [me, other] && e.user.id != me.id
    requires e.score == Score(me, e.user)
    ensures e.user == other && e.score.None?
  {
  }

  /** In a store of two, the first user is found as themself. */
  lemma PairMe(me: User, other: User)
    requires me.id != other.id
    ensures HasId([me, other], me.id)
    ensures Me([me, other], me.id) == me
  {
    assert [me, other][0].id == me.id;
  }

  /** A known user always gets a 200, unranked exactly when some
      candidate's score is undefined. */
  lemma FindMatchesUnranked(users: seq<User>, userId: Id)
    requires HasId(users, userId)
    ensures FindMatches(users, userId).Ok?
    ensures FindMatches(users, userId).body.Unranked? <==> !AllScored(Me(users, userId), Candidates(users, userId))
  {
  }

  /** What a ranked reply is, against the whole scored population: the
      first ten of its stable descending sort. Candidates tied on a score
      keep their store order, and no candidate left out scores above the
      last one returned. */
  lemma FindMatchesIsStableTopTen(users: seq<User>, userId: Id)
    requires FindMatches(users, userId).Ok? && FindMatches(users, userId).body.Ranked?
    ensures HasId(users, userId) && AllScored(Me(users, userId), Candidates(users, userId))
    ensures var all := Scored(Me(users, userId), Candidates(users, userId));
            var top := FindMatches(users, userId).body.top;
            && |top| == Min(MaxMatches, |all|)
            && top <= Ranking.SortDesc(all, ByScore)
            && (forall k :: Ranking.WithKey(Ranking.SortDesc(all, ByScore), ByScore, k) == Ranking.WithKey(all, ByScore, k))
            && (|top| > 0 ==> forall m :: m in multiset(all) - multiset(top) ==> m.score <= top[|top| - 1].score)
  {
    var all := Scored(Me(users, userId), Candidates(users, userId));
    var top := FindMatches(users, userId).body.top;
    assert top == Ranking.TopK(all, ByScore, MaxMatches);
    forall k
      ensures Ranking.WithKey(Ranking.SortDesc(all, ByScore), ByScore, k) == Ranking.WithKey(all, ByScore, k)
    {
      Ranking.SortDescStable(all, ByScore, k);
    }
    if |top| > 0 {
      forall m: Match | m in multiset(all) - multiset(top)
        ensures m.score <= top[|top| - 1].score
      {
        Ranking.TopKOmittedNoBetter(all, ByScore, MaxMatches, m);
      }
    }
  }

  /** As written, each reply entry is a whole user document, password
      included, while the user listings leave the password out. Whenever
      there are at most ten other users and every score is defined, every
      other user's stored password is in the reply. */
  lemma FindMatchesExposesPasswords(users: seq<User>, userId: Id, j: nat)
    requires HasId(users, userId)
    requires AllScored(Me(users, userId), Candidates(users, userId))
    requires |Candidates(users, userId)| <= MaxMatches
    requires j < |users| && users[j].id != userId
    ensures FindMatches(users, userId).Ok? && FindMatches(users, userId).body.Ranked?
    ensures exists m :: m in FindMatches(users, userId).body.top && m.user.password == users[j].password
  {
    var cands := Candidates(users, userId);
    var all := Scored(Me(users, userId), cands);
    FindMatchesRankedTop(users, userId);
    Ranking.TopKAll(all, ByScore, MaxMatches);
    assert users[j] in cands;
    var k :| 0 <= k < |cands| && cands[k] == users[j];
    assert all[k] in multiset(all);
    assert all[k] in FindMatches(users, userId).body.top;
  }

  /** When every score is defined, the reply is the top ten of the scored
      candidates. */
  lemma FindMatchesRankedTop(users: seq<User>, userId: Id)
    requires HasId(users, userId)
    requires AllScored(Me(users, userId), Candidates(users, userId))
    ensures FindMatches(users, userId) ==
              Ok(200, Ranked(Ranking.TopK(Scored(Me(users, userId), Candidates(users, userId)), ByScore, MaxMatches)))
  {
  }

  /** A reply entry with the candidate's public document, as the user
      listings return it. */
  datatype PublicMatch = PublicMatch(user: UC.PublicUser, commonSubjects: seq<string>,
                                     commonTimeSlots: seq<string>, score: int)

  datatype PublicRawMatch = PublicRawMatch(user: UC.PublicUser, commonSubjects: seq<string>,
                                           commonTimeSlots: seq<string>, score: Option<int>)

  datatype PublicMatchList = PublicRanked(top: seq<PublicMatch>) | PublicUnranked(entries: seq<PublicRawMatch>)

  function Redact(m: Match): PublicMatch
  {
    PublicMatch(UC.WithoutPassword(m.user), m.commonSubjects, m.commonTimeSlots, m.score)
  }

  function PublicScore(m: PublicMatch): int
  {
    m.score
  }

  /** The reply entries with every password removed, in the same order. */
  function RedactAll(top: seq<Match>): (r: seq<PublicMatch>)
    requires Ranking.NonIncreasing(top, ByScore)
    ensures |r| == |top|
    ensures Ranking.NonIncreasing(r, PublicScore)
    ensures forall i :: 0 <= i < |top| ==>
              && UC.WithPassword(r[i].user, top[i].user.password) == top[i].user
              && r[i].commonSubjects == top[i].commonSubjects
              && r[i].commonTimeSlots == top[i].commonTimeSlots
              && r[i].score == top[i].score
  {
    seq(|top|, i requires 0 <= i < |top| => Redact(top[i]))
  }

  /** The entries of an unranked reply with every password removed, in the
      same order. */
  function RedactAllRaw(entries: seq<RawMatch>): (r: seq<PublicRawMatch>)
    ensures |r| == |entries|
    ensures forall i :: 0 <= i < |entries| ==>
              && UC.WithPassword(r[i].user, entries[i].user.password) == entries[i].user
              && r[i].commonSubjects == entries[i].commonSubjects
              && r[i].commonTimeSlots == entries[i].commonTimeSlots
              && r[i].score == entries[i].score
  {
    seq(|entries|, i requires 0 <= i < |entries| =>
      PublicRawMatch(UC.WithoutPassword(entries[i].user), entries[i].commonSubjects,
                     entries[i].commonTimeSlots, entries[i].score))
  }

  /** `findMatches` with the candidates projected as `find(..., '-password')`
      projects them: the same ranking, the same scores and shared lists, and
      no password anywhere in the reply. */
  function FindMatchesRedacted(users: seq<User>, userId: Id): (r: Response<PublicMatchList>)
    ensures r.Error? <==> !HasId(users, userId)
    ensures r.Error? ==> r == Error(404, "User not found")
    ensures r.Ok? ==> r.status == 200 && (r.body.PublicRanked? <==> FindMatches(users, userId).body.Ranked?)
    ensures r.Ok? && r.body.PublicRanked? ==>
              var written := FindMatches(users, userId).body.top;
              && |r.body.top| == |written|
              && Ranking.NonIncreasing(r.body.top, PublicScore)
              && forall i :: 0 <= i < |written| ==>
                   && UC.WithPassword(r.body.top[i].user, written[i].user.password) == written[i].user
                   && r.body.top[i].commonSubjects == written[i].commonSubjects
                   && r.body.top[i].commonTimeSlots == written[i].commonTimeSlots
                   && r.body.top[i].score == written[i].score
    ensures r.Ok? && r.body.PublicUnranked? ==>
              var written := FindMatches(users, userId).body.entries;
              && |r.body.entries| == |written|
              && forall i :: 0 <= i < |written| ==>
                   && UC.WithPassword(r.body.entries[i].user, written[i].user.password) == written[i].user
                   && r.body.entries[i].commonSubjects == written[i].commonSubjects
                   && r.body.entries[i].commonTimeSlots == written[i].commonTimeSlots
                   && r.body.entries[i].score == written[i].score
  {
    var w := FindMatches(users, userId);
    if w.Error? then Error(w.status, w.message)
    else if w.body.Unranked? then Ok(w.status, PublicUnranked(RedactAllRaw(w.body.entries)))
    else Ok(w.status, PublicRanked(RedactAll(w.body.top)))
  }
}

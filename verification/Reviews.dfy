// Reviews of mentors: at most one per session, and the mentor's average recomputed from all
// of them after each one. Averages are stored in tenths of a star.
module Reviews {
  import opened Common

  type SessionId = string

  datatype Review = Review(session: SessionId, client: UserId, mentor: UserId, rating: int)

  datatype Profile = Profile(average: int, total: int)

  datatype User = User(balance: int, profile: Option<Profile>)

  datatype Session = Session(request: RequestId, client: UserId, mentor: UserId)

  datatype Store = Store(reviews: seq<Review>, users: map<UserId, User>, sessions: map<SessionId, Session>)

  datatype Error = BadRating | NoSession | NotTheClient | AlreadyReviewed | SaveFailed

  function ReviewsOf(reviews: seq<Review>, mentor: UserId): seq<Review> {
    if reviews == [] then []
    else
      ReviewsOf(reviews[..|reviews| - 1], mentor)
      + if reviews[|reviews| - 1].mentor == mentor then [reviews[|reviews| - 1]] else []
  }

  function Sum(reviews: seq<Review>): int {
    if reviews == [] then 0 else Sum(reviews[..|reviews| - 1]) + reviews[|reviews| - 1].rating
  }

  predicate Reviewed(reviews: seq<Review>, session: SessionId) {
    exists i :: 0 <= i < |reviews| && reviews[i].session == session
  }

  /** Rounds a quotient of non-negative numbers to the nearest integer, halves up. */
  function Round(a: int, b: int): int
    requires b > 0
  {
    (2 * a + b) / (2 * b)
  }

  /** The profile that a mentor's reviews amount to. */
  function Mean(own: seq<Review>): Profile
    requires own != []
  {
    Profile(Round(10 * Sum(own), |own|), |own|)
  }

  /** The id is looked up as a session first, and as the request of one otherwise. */
  predicate Names(s: Store, id: string, session: SessionId) {
    session in s.sessions && (if id in s.sessions then session == id else s.sessions[session].request == id)
  }

  // How the calls of one review go once it has passed its checks: the insert, and everything
  // that recomputing the average takes (listing the reviews, reading and replacing the
  // mentor), whose errors are dropped.
  datatype Env = Env(insert: Reply, recomputes: bool)

  function Recomputed(s: Store, mentor: UserId): Store {
    var own := ReviewsOf(s.reviews, mentor);
    if own == [] || mentor !in s.users || s.users[mentor].profile.None? then s
    else s.(users := s.users[mentor := s.users[mentor].(profile := Some(Mean(own)))])
  }

  /** The store after the calls that follow the checks. */
  function Recorded(s: Store, r: Review, env: Env): Store {
    var t := if env.insert.Lost? then s else s.(reviews := s.reviews + [r]);
    if env.insert.Landed? && env.recomputes then Recomputed(t, r.mentor) else t
  }

  class ReviewService {
    var reviews: seq<Review>
    var users: map<UserId, User>
    var sessions: map<SessionId, Session>

    ghost function View(): Store
      reads this
    {
      Store(reviews, users, sessions)
    }

    constructor (users: map<UserId, User>, sessions: map<SessionId, Session>)
      ensures View() == Store([], users, sessions)
    {
      this.reviews, this.users, this.sessions := [], users, sessions;
    }

    method SumRatings(own: seq<Review>) returns (sum: int)
      ensures sum == Sum(own)
    {
      sum := 0;
      for i := 0 to |own|
        invariant sum == Sum(own[..i])
      {
        assert own[..i + 1][..i] == own[..i];
        sum := sum + own[i].rating;
      }
      assert own[..|own|] == own;
    }

    /** The average of the mentor's reviews, rounded to a tenth, and their number. */
    method Recompute(mentor: UserId, works: bool)
      modifies this`users
      ensures View() == if works then Recomputed(old(View()), mentor) else old(View())
    {
      var own := ReviewsOf(reviews, mentor);
      if works && |own| > 0 {
        var sum := SumRatings(own);
        if mentor in users && users[mentor].profile.Some? {
          var average := Round(10 * sum, |own|);
          users := users[mentor := users[mentor].(profile := Some(Profile(average, |own|)))];
        }
      }
    }

    /** `found` is the session the lookup came up with; a failed check for an earlier review
        is ignored, and the unique index of the collection then decides. */
    method CreateReview(client: UserId, id: string, found: Option<SessionId>, rating: int, checked: bool, env: Env)
      returns (r: Result<Review, Error>)
      requires found.Some? ==> Names(View(), id, found.value)
      modifies this
      ensures var valid := 1 <= rating <= 5 && found.Some? && old(sessions)[found.value].client == client
                           && !Reviewed(old(reviews), found.value);
              && (r.Success? <==> valid && env.insert.Landed?)
              && (valid ==>
                    var review := Review(found.value, client, old(sessions)[found.value].mentor, rating);
                    View() == Recorded(old(View()), review, env) && (r.Success? ==> r.value == review))
              && (!valid ==> View() == old(View()))
      ensures found.Some? ==> View() == Step(old(View()), Attempt(client, found.value, rating, env))
    {
      if rating < 1 || rating > 5 {
        return Failure(BadRating);
      }
      if found.None? {
        return Failure(NoSession);
      }
      var session := sessions[found.value];
      if session.client != client {
        return Failure(NotTheClient);
      }
      var taken := exists i :: 0 <= i < |reviews| && reviews[i].session == found.value;
      if checked && taken {
        return Failure(AlreadyReviewed);
      }
      if taken {
        return Failure(SaveFailed);
      }
      var review := Review(found.value, client, session.mentor, rating);
      if !env.insert.Lost? {
        reviews := reviews + [review];
      }
      if !env.insert.Landed? {
        return Failure(SaveFailed);
      }
      Recompute(session.mentor, env.recomputes);
      r := Success(review);
    }
  }

  // ------------------------------------------------------------------ any run of reviews

  // One attempt to review, with the session its id was resolved to and how its calls go.
  datatype Attempt = Attempt(client: UserId, session: SessionId, rating: int, env: Env)

  predicate Accepted(s: Store, a: Attempt) {
    1 <= a.rating <= 5 && a.session in s.sessions && s.sessions[a.session].client == a.client && !Reviewed(s.reviews, a.session)
  }

  function ReviewFor(s: Store, a: Attempt): Review
    requires Accepted(s, a)
  {
    Review(a.session, a.client, s.sessions[a.session].mentor, a.rating)
  }

  function Step(s: Store, a: Attempt): Store {
    if Accepted(s, a) then Recorded(s, ReviewFor(s, a), a.env) else s
  }

  function Run(s: Store, attempts: seq<Attempt>): Store {
    if attempts == [] then s else Step(Run(s, attempts[..|attempts| - 1]), attempts[|attempts| - 1])
  }

  /** An attempt stores a review if and only if it rates one to five stars, comes from the
      session's client, is the session's first, and its insert is not lost. It is the review of
      this session's mentor with this rating. */
  lemma AttemptStores(s: Store, a: Attempt)
    ensures var t := Step(s, a);
            if 1 <= a.rating <= 5 && a.session in s.sessions && s.sessions[a.session].client == a.client
               && (forall i | 0 <= i < |s.reviews| :: s.reviews[i].session != a.session) && !a.env.insert.Lost?
            then
              && |t.reviews| == |s.reviews| + 1 && t.reviews[..|s.reviews|] == s.reviews
              && var r := t.reviews[|s.reviews|];
                 r.session == a.session && r.client == a.client && r.mentor == s.sessions[a.session].mentor && r.rating == a.rating
            else t == s
  {
  }

  ghost predicate OnePerSession(reviews: seq<Review>) {
    forall i, j | 0 <= i < j < |reviews| :: reviews[i].session != reviews[j].session
  }

  ghost predicate RatingsInRange(reviews: seq<Review>) {
    forall i | 0 <= i < |reviews| :: 1 <= reviews[i].rating <= 5
  }

  predicate IsMentor(s: Store, m: UserId) {
    m in s.users && s.users[m].profile.Some?
  }

  /** The mentor's profile is what some first part of the mentor's reviews amounts to. */
  predicate Lags(s: Store, m: UserId) {
    IsMentor(s, m) ==>
      var p, own := s.users[m].profile.value, ReviewsOf(s.reviews, m);
      0 <= p.total <= |own| && (p.total > 0 ==> p == Mean(own[..p.total]))
  }

  /** The mentor's profile shows all of the mentor's reviews. */
  predicate Current(s: Store, m: UserId) {
    IsMentor(s, m) ==> s.users[m].profile.value.total == |ReviewsOf(s.reviews, m)|
  }

  /** The last review of the mentor that was stored was followed by a recomputation. */
  predicate UpToDate(s: Store, attempts: seq<Attempt>, m: UserId) {
    if attempts == [] then true
    else
      var before, a := Run(s, attempts[..|attempts| - 1]), attempts[|attempts| - 1];
      if Accepted(before, a) && ReviewFor(before, a).mentor == m && !a.env.insert.Lost?
      then a.env.insert.Landed? && a.env.recomputes
      else UpToDate(s, attempts[..|attempts| - 1], m)
  }

  lemma ReviewsOfSnoc(reviews: seq<Review>, r: Review, m: UserId)
    ensures ReviewsOf(reviews + [r], m) == ReviewsOf(reviews, m) + if r.mentor == m then [r] else []
  {
    assert (reviews + [r])[..|reviews|] == reviews;
  }

  lemma RecordedKeepsReviews(s: Store, r: Review, env: Env)
    requires OnePerSession(s.reviews) && RatingsInRange(s.reviews)
    requires 1 <= r.rating <= 5 && !Reviewed(s.reviews, r.session)
    ensures OnePerSession(Recorded(s, r, env).reviews) && RatingsInRange(Recorded(s, r, env).reviews)
  {
    forall i | 0 <= i < |s.reviews| ensures s.reviews[i].session != r.session {}
  }

  lemma RecordedProfile(s: Store, r: Review, env: Env, m: UserId)
    requires Lags(s, m)
    ensures var t := Recorded(s, r, env);
            && Lags(t, m) && (IsMentor(t, m) <==> IsMentor(s, m))
            && (IsMentor(s, m) ==>
                  (Current(t, m) <==> if r.mentor == m && !env.insert.Lost? then env.insert.Landed? && env.recomputes else Current(s, m)))
  {
    var t := Recorded(s, r, env);
    if !env.insert.Lost? {
      ReviewsOfSnoc(s.reviews, r, m);
      var own, all := ReviewsOf(s.reviews, m), ReviewsOf(t.reviews, m);
      assert all[..|all|] == all;
      if IsMentor(s, m) && s.users[m].profile.value.total <= |own| {
        var k := s.users[m].profile.value.total;
        assert k >= 0 ==> all[..k] == own[..k];
      }
      hide Mean, ReviewsOf;
    }
  }

  lemma RecordedKeepsBalances(s: Store, r: Review, env: Env)
    ensures var t := Recorded(s, r, env);
            && t.users.Keys == s.users.Keys && t.sessions == s.sessions
            && forall u | u in s.users :: t.users[u].balance == s.users[u].balance
  {
  }

  /** New users and mentors have no reviews and a total of 0. */
  predicate Starts(s: Store) {
    s.reviews == [] && forall m | m in s.users && s.users[m].profile.Some? :: s.users[m].profile.value.total == 0
  }

  /** After any sequence of attempts, however their calls go: one review per session, and the
      users' balances as they were. */
  lemma {:induction false} RunKeepsRatings(s: Store, attempts: seq<Attempt>)
    requires Starts(s)
    ensures var t := Run(s, attempts);
            && OnePerSession(t.reviews) && RatingsInRange(t.reviews)
            && t.users.Keys == s.users.Keys && t.sessions == s.sessions
            && (forall u | u in s.users :: t.users[u].balance == s.users[u].balance)
  {
    if attempts != [] {
      var init, a := attempts[..|attempts| - 1], attempts[|attempts| - 1];
      RunKeepsRatings(s, init);
      var before := Run(s, init);
      if Accepted(before, a) {
        RecordedKeepsReviews(before, ReviewFor(before, a), a.env);
        RecordedKeepsBalances(before, ReviewFor(before, a), a.env);
        hide Recorded, Reviewed;
      }
    }
  }

  /** A mentor's profile always shows a first part of the mentor's reviews, and all of them if
      and only if the last one stored was followed by a recomputation. */
  lemma {:induction false} CurrentIff(s: Store, attempts: seq<Attempt>, m: UserId)
    requires Starts(s) && IsMentor(s, m)
    ensures var t := Run(s, attempts);
            IsMentor(t, m) && Lags(t, m) && (Current(t, m) <==> UpToDate(s, attempts, m))
  {
    if attempts != [] {
      var init, a := attempts[..|attempts| - 1], attempts[|attempts| - 1];
      CurrentIff(s, init, m);
      var before := Run(s, init);
      if Accepted(before, a) {
        RecordedProfile(before, ReviewFor(before, a), a.env, m);
        hide Recorded, Lags, Current, IsMentor;
      }
    }
  }

  lemma {:induction false} SumInRange(reviews: seq<Review>)
    requires RatingsInRange(reviews)
    ensures |reviews| <= Sum(reviews) <= 5 * |reviews|
  {
    if reviews != [] {
      SumInRange(reviews[..|reviews| - 1]);
    }
  }

  lemma {:induction false} ReviewsOfInRange(reviews: seq<Review>, m: UserId)
    requires RatingsInRange(reviews)
    ensures RatingsInRange(ReviewsOf(reviews, m))
  {
    if reviews != [] {
      ReviewsOfInRange(reviews[..|reviews| - 1], m);
    }
  }

  /** The rounded mean of some reviews: between one and five stars, and within half a tenth
      of the exact one. */
  lemma MeanIsClose(own: seq<Review>)
    requires own != [] && RatingsInRange(own)
    ensures var average, sum, n := Mean(own).average, Sum(own), |own|;
            && average == (20 * sum + n) / (2 * n)
            && 10 <= average <= 50
            && -n <= 2 * (average * n - 10 * sum) <= n
  {
    SumInRange(own);
    RoundIsClose(10 * Sum(own), |own|);
    assert 2 * (10 * Sum(own)) == 20 * Sum(own);
  }

  /** The stored average is that of the mentor's first `total` reviews: between one and five
      stars, and within half a tenth of their mean. */
  lemma AverageIsClose(s: Store, attempts: seq<Attempt>, m: UserId)
    requires Starts(s) && IsMentor(s, m)
    ensures var t := Run(s, attempts);
            IsMentor(t, m) &&
            var p, own := t.users[m].profile.value, ReviewsOf(t.reviews, m);
            && 0 <= p.total <= |own| && (p.total == |own| <==> UpToDate(s, attempts, m))
            && (p.total > 0 ==>
                  var sum := Sum(own[..p.total]);
                  && p.average == (20 * sum + p.total) / (2 * p.total)
                  && 10 <= p.average <= 50
                  && -p.total <= 2 * (p.average * p.total - 10 * sum) <= p.total)
  {
    hide Mean, Sum, Run, ReviewsOf;
    RunKeepsRatings(s, attempts);
    CurrentIff(s, attempts, m);
    var t := Run(s, attempts);
    var own := ReviewsOf(t.reviews, m);
    ReviewsOfInRange(t.reviews, m);
    var p := t.users[m].profile.value;
    if p.total > 0 {
      MeanIsClose(own[..p.total]);
    }
  }

  lemma RoundIsClose(a: int, n: int)
    requires n > 0
    ensures -n <= 2 * (Round(a, n) * n - a) <= n
    ensures 10 * n <= a <= 50 * n ==> 10 <= Round(a, n) <= 50
  {
    var q := Round(a, n);
    Quotient(2 * a + n, 2 * n);
    assert (2 * n) * q == 2 * (q * n);
    if 10 * n <= a <= 50 * n {
      Scale(n, q, 9);
      Scale(n, 51, q);
    }
  }

  lemma Quotient(x: int, d: int)
    requires d > 0
    ensures d * (x / d) <= x < d * (x / d) + d
  {
  }

  lemma Scale(n: int, a: int, b: int)
    requires n > 0
    ensures a <= b ==> (2 * n) * a <= (2 * n) * b
  {
  }
}

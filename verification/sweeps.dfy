/** The batch sweeps over every user: the points recomputation of calculate-all-points, the level
    sweeps of sync-all, cron sync-levels and users/update-points. Each sweep reads all users once
    and then writes them one at a time; no other request interleaves. */
module Sweeps {
  import opened Wrappers
  import opened Points
  import opened Models
  import opened Db
  import opened Notify
  import opened Sorting
  import opened Auth
  import opened Awards

  // ---------------------------------------------------------------- calculate-all-points

  predicate IsFiveStar(r: RatingEntry) {
    r.score == 5
  }

  /** The points a user's activity is worth: per book held, per completed exchange, per rating
      entry and per five-star rating entry, at the rates of the reward table. */
  function ActivityPoints(u: User): (p: int)
    ensures p == |u.books| * ADD_BOOK + u.totalExchanges.GetOr(0) * COMPLETE_EXCHANGE
               + |u.ratings| * GIVE_RATING + CountIf(u.ratings, IsFiveStar) * RECEIVE_5_STAR_RATING
    ensures u.totalExchanges.GetOr(0) >= 0 ==> p >= 0
  {
    |u.books| * 15 + u.totalExchanges.GetOr(0) * 20 + |u.ratings| * 5 + CountIf(u.ratings, IsFiveStar) * 10
  }

  /** One user after the recomputation: points overwritten with the activity total and level set
      to that total's level, after which the post-update hook runs on the record as it was before
      (the update does not ask for the new document). A stale stored level therefore replaces the
      new level with the level of the OLD points. */
  function Recomputed(u: User): (v: User)
    ensures v.points == Some(ActivityPoints(u))
    ensures v.(points := u.points, level := u.level) == u
    ensures LevelConsistent(u) ==> LevelConsistent(v)
    ensures !LevelConsistent(u) ==> v.level == CalculateLevel(PointsOrZero(u))
  {
    var total := ActivityPoints(u);
    PostUpdateHook(u.(points := Some(total), level := CalculateLevel(total)), u)
  }

  /** Two recomputations always leave the level consistent, and a third changes nothing. */
  lemma RecomputeSettles(u: User)
    ensures LevelConsistent(Recomputed(Recomputed(u)))
    ensures Recomputed(Recomputed(u)).points == Recomputed(u).points
    ensures Recomputed(Recomputed(Recomputed(u))) == Recomputed(Recomputed(u))
  {
    var v := Recomputed(u);
    assert ActivityPoints(v) == ActivityPoints(u) by {
      assert v.books == u.books && v.ratings == u.ratings && v.totalExchanges == u.totalExchanges;
    }
  }

  /** From a consistent record the recomputation is idempotent. */
  lemma RecomputeIdempotent(u: User)
    requires LevelConsistent(u)
    ensures Recomputed(Recomputed(u)) == Recomputed(u)
  {
    var v := Recomputed(u);
    assert ActivityPoints(v) == ActivityPoints(u) by {
      assert v.books == u.books && v.ratings == u.ratings && v.totalExchanges == u.totalExchanges;
    }
  }

  /** From a stale record one run is not enough: 100 points at Bronze with no activity ends at 0
      points but Silver, and the next run moves it to Bronze. */
  lemma RecomputeStaleCounterexample()
    ensures var u := NewUser("Ann", "ann@example.com", "secret", "Pune", "").(points := Some(100));
            && Recomputed(u).points == Some(0)
            && Recomputed(u).level == Silver
            && Recomputed(Recomputed(u)).level == Bronze
  {
    var u := NewUser("Ann", "ann@example.com", "secret", "Pune", "").(points := Some(100));
    assert CountIf(u.ratings, IsFiveStar) == 0;
    var v := Recomputed(u);
    assert CountIf(v.ratings, IsFiveStar) == 0;
  }

  /** The recomputation does not reproduce incremental awarding: its rating terms count the
      ratings a user has received, while a rating awards 5 points to the rater and 10 more to the
      rated user only for five stars. A user whose only activity is one five-star rating received
      is recomputed to 15 points but was awarded 10. */
  lemma RecomputeDisagreesWithAwards()
    ensures var u := NewUser("Ann", "ann@example.com", "secret", "Pune", "").(ratings := [RatingEntry(1, 5, "")]);
            var s := Store([u], [], [], [], [], []);
            && ActivityPoints(u) == 15
            && AddPointsForFiveStarRating(s, 0).1.users[0].points == Some(10)
  {
    var u := NewUser("Ann", "ann@example.com", "secret", "Pune", "").(ratings := [RatingEntry(1, 5, "")]);
    assert CountIf(u.ratings, IsFiveStar) == 1 by {
      assert u.ratings[..0] == [];
    }
  }

  /** The calculate-all-points handler (it checks no credentials): every user is recomputed and
      counted. */
  method CalculateAllPoints(s: Store) returns (t: Store, totalUsers: nat, updatedCount: nat)
    ensures |t.users| == |s.users|
    ensures forall i :: 0 <= i < |s.users| ==> t.users[i] == Recomputed(s.users[i])
    ensures t == s.(users := t.users)
    ensures totalUsers == |s.users| && updatedCount == |s.users|
  {
    var users := s.users;
    var cur := users;
    updatedCount := 0;
    var i := 0;
    while i < |users|
      invariant 0 <= i <= |users| == |cur|
      invariant updatedCount == i
      invariant forall j :: 0 <= j < i ==> cur[j] == Recomputed(users[j])
      invariant forall j :: i <= j < |users| ==> cur[j] == users[j]
    {
      var user := users[i];
      var total := ActivityPoints(user);
      var newLevel := CalculateLevel(total);
      cur := UpdateUser(cur, i, user.(points := Some(total), level := newLevel), false);
      updatedCount := updatedCount + 1;
      i := i + 1;
    }
    t := s.(users := cur);
    totalUsers := |users|;
  }

  // ---------------------------------------------------------------- level sweeps

  /** The stored level disagrees with the stored points. */
  predicate Stale(u: User) {
    !LevelConsistent(u)
  }

  /** A user after a level sweep: the level recomputed from the points, nothing else touched. */
  function Synced(u: User): (v: User)
    ensures LevelConsistent(v) && v.points == u.points
    ensures v.(level := u.level) == u
    ensures !Stale(u) ==> v == u
  {
    u.(level := CalculateLevel(PointsOrZero(u)))
  }

  /** Writing the recomputed level of a stale user `u` leaves `Synced(u)` stored, whether the
      stored record is still `u` or already synced: the hook, run on the pre-update record, can
      only recompute the same level. */
  lemma SyncStep(cur: seq<User>, id: Id, u: User)
    requires id < |cur|
    requires cur[id] == u || cur[id] == Synced(u)
    requires Stale(u)
    ensures UpdateUser(cur, id, u.(level := CalculateLevel(PointsOrZero(u))), false)[id] == Synced(u)
  {
  }

  /** The cron sweep: every stale user is rewritten, and only those are counted. */
  method SyncLevels(s: Store) returns (t: Store, totalUsers: nat, updatedCount: nat)
    ensures |t.users| == |s.users|
    ensures forall i :: 0 <= i < |s.users| ==> t.users[i] == Synced(s.users[i])
    ensures t == s.(users := t.users)
    ensures totalUsers == |s.users|
    ensures updatedCount == CountIf(s.users, Stale)
  {
    var users := s.users;
    var cur := users;
    updatedCount := 0;
    var i := 0;
    while i < |users|
      invariant 0 <= i <= |users| == |cur|
      invariant updatedCount == CountIf(users[..i], Stale)
      invariant forall j :: 0 <= j < i ==> cur[j] == Synced(users[j])
      invariant forall j :: i <= j < |users| ==> cur[j] == users[j]
    {
      var user := users[i];
      var newLevel := CalculateLevel(PointsOrZero(user));
      assert users[..i + 1][..i] == users[..i];
      if user.level != newLevel {
        SyncStep(cur, i, user);
        cur := UpdateUser(cur, i, user.(level := newLevel), false);
        updatedCount := updatedCount + 1;
      }
      i := i + 1;
    }
    assert users[..i] == users;
    t := s.(users := cur);
    totalUsers := |users|;
  }

  /** The users/update-points handler: session first, then the Bearer token; any authenticated
      caller, whoever it is, triggers the global level sweep, and the reply counts every user. */
  method UpdatePoints(s: Store, cred: Credentials, tokens: map<string, Id>) returns (t: Store, r: Reply<nat>)
    ensures var caller := SessionFirstCaller(s.users, cred, tokens, "Authentication required");
            && (r.Failure? <==> caller.Denied?)
            && (r.Failure? ==> t == s && r == Failure(caller.status, caller.error))
    ensures r.Success? ==>
      && r == Success(200, |s.users|)
      && |t.users| == |s.users|
      && (forall i :: 0 <= i < |s.users| ==> t.users[i] == Synced(s.users[i]))
      && t == s.(users := t.users)
  {
    match SessionFirstCaller(s.users, cred, tokens, "Authentication required")
    case Denied(status, error) =>
      t := s;
      r := Failure(status, error);
    case Caller(_) =>
      var totalUsers, updatedCount;
      t, totalUsers, updatedCount := SyncLevels(s);
      r := Success(200, |s.users|);
  }

  // ---------------------------------------------------------------- sync-all

  /** `.sort({ points: -1 })`: a user without points sorts below every user with points. */
  function UserPointsKey(u: User): SortKey {
    if u.points.Some? then Num(u.points.value as real) else Missing
  }

  function PairPointsKey(e: (nat, User)): SortKey {
    UserPointsKey(e.1)
  }

  predicate PairStale(e: (nat, User)) {
    Stale(e.1)
  }

  /** One visit of a level sweep: a stale user's recomputed level is written (and the hook runs
      on the pre-update record); afterwards the stored record is `Synced(user)` either way. */
  method SyncVisit(cur: seq<User>, users: seq<User>, id: Id, user: User) returns (next: seq<User>, stale: bool)
    requires id < |cur| == |users| && user == users[id]
    requires cur[id] == user || cur[id] == Synced(user)
    ensures next == cur[id := Synced(user)]
    ensures stale <==> Stale(user)
  {
    var newLevel := CalculateLevel(PointsOrZero(user));
    stale := user.level != newLevel;
    if stale {
      SyncStep(cur, id, user);
      next := UpdateUser(cur, id, user.(level := newLevel), false);
    } else {
      next := cur;
    }
  }

  /** A leaderboard notification attempt whose failure is caught: the save is always refused, so
      the store is left as it was. */
  method AttemptLeaderboard(t: Store, id: Id, position: int, totalUsers: int) returns (t': Store)
    ensures t' == t
  {
    t' := SaveIgnoringFailure(t, CreateLeaderboardNotification(t, id, position, totalUsers));
  }

  /** What the sync-all loop has done after visiting the first `k` entries of `order`: those
      users are synced and the others untouched or synced, the stale ones among them are counted,
      and an attempt is recorded for each of the first ten positions. */
  predicate Visited(users: seq<User>, order: seq<(nat, User)>, k: nat, cur: seq<User>, count: nat, attempted: seq<(Id, int, int)>) {
    && k <= |order|
    && |cur| == |users|
    && (forall j :: 0 <= j < |users| ==> cur[j] == users[j] || cur[j] == Synced(users[j]))
    && (forall m :: 0 <= m < k ==> order[m].0 < |cur| && cur[order[m].0] == Synced(users[order[m].0]))
    && count == CountIf(order[..k], PairStale)
    && |attempted| == (if k < 10 then k else 10)
    && (forall m :: 0 <= m < |attempted| ==> attempted[m] == (order[m].0, m + 1, |users|))
  }

  /** One iteration of the sync-all loop: visit entry `k`, count it if stale, and attempt its
      leaderboard notification when it is among the first ten. */
  method SyncEntry(s: Store, order: seq<(nat, User)>, k: nat, cur: seq<User>, count: nat, attempted: seq<(Id, int, int)>)
    returns (cur': seq<User>, count': nat, attempted': seq<(Id, int, int)>)
    requires forall k :: 0 <= k < |order| ==> order[k].0 < |s.users| && order[k].1 == s.users[order[k].0]
    requires k < |order| && Visited(s.users, order, k, cur, count, attempted)
    ensures Visited(s.users, order, k + 1, cur', count', attempted')
  {
    var users := s.users;
    assert order[..k + 1][..k] == order[..k];
    var stale;
    cur', stale := SyncVisit(cur, users, order[k].0, order[k].1);
    count' := if stale then count + 1 else count;
    var position := k + 1;
    attempted' := attempted;
    if position <= 10 {
      var st := AttemptLeaderboard(s.(users := cur'), order[k].0, position, |users|);
      cur' := st.users;
      attempted' := attempted + [(order[k].0, position, |users|)];
    }
  }

  /** The loop of sync-all over a visiting order of (id, user) pairs read from `s`: each stale
      user is rewritten and counted, and a leaderboard notification for position `k + 1` of
      `|s.users|` is attempted for each of the first ten entries. Those attempts all fail
      validation and are caught, so no notification is stored. */
  method SyncInOrder(s: Store, order: seq<(nat, User)>) returns (t: Store, attempted: seq<(Id, int, int)>, updatedCount: nat)
    requires forall k :: 0 <= k < |order| ==> order[k].0 < |s.users| && order[k].1 == s.users[order[k].0]
    ensures |t.users| == |s.users|
    ensures t == s.(users := t.users)
    ensures forall m :: 0 <= m < |order| ==> t.users[order[m].0] == Synced(s.users[order[m].0])
    ensures updatedCount == CountIf(order, PairStale)
    ensures |attempted| == if |order| < 10 then |order| else 10
    ensures forall m :: 0 <= m < |attempted| ==> attempted[m] == (order[m].0, m + 1, |s.users|)
  {
    var cur := s.users;
    attempted := [];
    updatedCount := 0;
    var k := 0;
    while k < |order|
      invariant Visited(s.users, order, k, cur, updatedCount, attempted)
    {
      cur, updatedCount, attempted := SyncEntry(s, order, k, cur, updatedCount, attempted);
      k := k + 1;
    }
    assert order[..k] == order;
    t := s.(users := cur);
  }

  /** The sync-all handler: users are visited in descending points order, every stale user is
      rewritten and counted, and the first ten positions get a leaderboard notification attempt. */
  method SyncAll(s: Store)
    returns (t: Store, ranking: seq<Id>, attempted: seq<(Id, int, int)>, totalUsers: nat, updatedCount: nat)
    ensures |t.users| == |s.users|
    ensures forall i :: 0 <= i < |s.users| ==> t.users[i] == Synced(s.users[i])
    ensures t == s.(users := t.users)
    ensures totalUsers == |s.users|
    ensures updatedCount == CountIf(s.users, Stale)
    ensures |ranking| == |s.users|
    ensures forall k :: 0 <= k < |ranking| ==> ranking[k] < |s.users|
    ensures forall i :: 0 <= i < |s.users| ==> i in ranking
    ensures forall a, b :: 0 <= a < b < |ranking| ==>
              KeyLe(UserPointsKey(s.users[ranking[b]]), UserPointsKey(s.users[ranking[a]]))
    ensures |attempted| == if |s.users| < 10 then |s.users| else 10
    ensures forall k :: 0 <= k < |attempted| ==> attempted[k] == (ranking[k], k + 1, |s.users|)
  {
    var users := s.users;
    var n := |users|;
    var order := SortDesc(Enumerate(users), PairPointsKey);
    EnumeratedPermutation(users, order);
    ranking := seq(n, k requires 0 <= k < n => order[k].0);
    t, attempted, updatedCount := SyncInOrder(s, order);
    forall i | 0 <= i < n
      ensures t.users[i] == Synced(users[i]) && i in ranking
    {
      assert Visits(order, i);
      var m :| 0 <= m < |order| && order[m].0 == i;
      assert ranking[m] == i;
    }
    forall a, b | 0 <= a < b < n
      ensures KeyLe(UserPointsKey(users[ranking[b]]), UserPointsKey(users[ranking[a]]))
    {
      assert PairPointsKey(order[b]) == UserPointsKey(users[ranking[b]]);
      assert PairPointsKey(order[a]) == UserPointsKey(users[ranking[a]]);
    }
    CountIfPermutation(order, Enumerate(users), PairStale);
    CountIfEnumerate(users, Stale, PairStale);
    totalUsers := n;
  }
}

/** The point-award paths: `awardPoints` and `updateUserLevel` of src/lib/points.js and
    `addPointsToUser` with its fixed-delta wrappers of src/lib/points-utils.js. Execution is
    sequential: the read of the user and the write of the new total see the same record. */
module Awards {
  import opened Wrappers
  import opened Points
  import opened Models
  import opened Db
  import opened Notify

  /** What `awardPoints` returns, together with the notifications it tried to save, in order. */
  datatype Award = Award(newPoints: int, newLevel: Level, user: User, attempted: seq<Notification>)

  /** `awardPoints(userId, delta, reason)`: a missing user throws "User not found"; otherwise the
      stored points grow by `delta`, the level is recomputed from the new total, a points
      notification is attempted and, when the level changed, a level-up notification. A failed
      notification is swallowed and does not undo the points write. */
  function AwardPoints(s: Store, userId: Id, delta: int, reason: string): (r: (Result<Award>, Store))
    ensures userId >= |s.users| ==> r.0 == Err("User not found") && r.1 == s
    ensures userId < |s.users| ==> r.0.Ok?
    ensures r.0.Ok? ==> userId < |s.users| == |r.1.users|
    ensures r.0.Ok? ==>
      var before := s.users[userId];
      var after := r.1.users[userId];
      && r.0.value.newPoints == PointsOrZero(before) + delta
      && after.points == Some(PointsOrZero(before) + delta)
      && after.level == CalculateLevel(PointsOrZero(before) + delta) == r.0.value.newLevel
      && after.(points := before.points, level := before.level) == before
      && r.0.value.user == after
      && (forall j :: 0 <= j < |s.users| && j != userId ==> r.1.users[j] == s.users[j])
      && r.1 == s.(users := r.1.users)
      && |r.0.value.attempted| >= 1
      && r.0.value.attempted[0].kind == "points_earned"
      && (|r.0.value.attempted| == 2 <==> before.level != r.0.value.newLevel)
      && (|r.0.value.attempted| == 2 ==> r.0.value.attempted[1].kind == "level_up")
  {
    if userId >= |s.users| then (Err("User not found"), s)
    else
      var before := s.users[userId];
      var newPoints := PointsOrZero(before) + delta;
      var newLevel := CalculateLevel(newPoints);
      // `$inc` adds to the stored total; a missing total starts from 0
      var updated := before.(points := Some(PointsOrZero(before) + delta), level := newLevel);
      var s1 := s.(users := UpdateUser(s.users, userId, updated, true));
      var pointsNote := PointsRecord(userId, delta, reason);
      var s2 := SaveIgnoringFailure(s1, CreatePointsNotification(s1, userId, delta, reason));
      if before.level != newLevel then
        var levelNote := LevelUpRecord(userId, newLevel, newPoints);
        var s3 := SaveIgnoringFailure(s2, CreateLevelUpNotification(s2, userId, newLevel, newPoints));
        (Ok(Award(newPoints, newLevel, s3.users[userId], [pointsNote, levelNote])), s3)
      else
        (Ok(Award(newPoints, newLevel, s2.users[userId], [pointsNote])), s2)
  }

  /** Awarding never stores a notification: both attempted types are outside the schema's enum. */
  lemma AwardStoresNoNotification(s: Store, userId: Id, delta: int, reason: string)
    ensures AwardPoints(s, userId, delta, reason).1.notifications == s.notifications
  {
  }

  /** Successive awards accumulate: after one or more awards the total is the starting total plus
      every delta, and the level is that total's level, whatever the order of the awards. */
  lemma {:induction false} AwardsAccumulate(s: Store, userId: Id, deltas: seq<int>)
    requires userId < |s.users| && deltas != []
    ensures userId < |AwardAll(s, userId, deltas).users|
    ensures LevelConsistent(AwardAll(s, userId, deltas).users[userId])
    ensures PointsOrZero(AwardAll(s, userId, deltas).users[userId]) == PointsOrZero(s.users[userId]) + Sum(deltas)
    decreases |deltas|
  {
    var s1 := Awarded(s, userId, deltas[0]);
    if |deltas| > 1 {
      AwardsAccumulate(s1, userId, deltas[1..]);
    }
  }

  function Sum(deltas: seq<int>): int {
    if deltas == [] then 0 else deltas[0] + Sum(deltas[1..])
  }

  /** The store after one award, with the facts about it that successive awards build on. */
  function Awarded(s: Store, userId: Id, delta: int): (s1: Store)
    requires userId < |s.users|
    ensures |s1.users| == |s.users|
    ensures PointsOrZero(s1.users[userId]) == PointsOrZero(s.users[userId]) + delta
    ensures LevelConsistent(s1.users[userId])
  {
    AwardPoints(s, userId, delta, "").1
  }

  /** Apply one award per delta, in order. */
  function AwardAll(s: Store, userId: Id, deltas: seq<int>): (t: Store)
    requires userId < |s.users|
    ensures |t.users| == |s.users|
    decreases |deltas|
  {
    if deltas == [] then s else AwardAll(Awarded(s, userId, deltas[0]), userId, deltas[1..])
  }

  /** `updateUserLevel(userId)`: a missing user throws; otherwise the level is rewritten only when
      it disagrees with the points, the points never change, and the reply names the resulting
      level (the stored one when nothing needed changing). */
  function UpdateUserLevel(s: Store, userId: Id): (r: (Result<(Level, int)>, Store))
    ensures userId >= |s.users| ==> r.0 == Err("User not found") && r.1 == s
    ensures userId < |s.users| ==>
      var before := s.users[userId];
      && |r.1.users| == |s.users|
      && r.0 == Ok((CalculateLevel(PointsOrZero(before)), PointsOrZero(before)))
      && r.1.users[userId] == before.(level := CalculateLevel(PointsOrZero(before)))
      && (LevelConsistent(before) ==> r.1 == s)
      && (forall j :: 0 <= j < |s.users| && j != userId ==> r.1.users[j] == s.users[j])
      && r.1 == s.(users := r.1.users)
  {
    if userId >= |s.users| then (Err("User not found"), s)
    else
      var user := s.users[userId];
      var current := PointsOrZero(user);
      var newLevel := CalculateLevel(current);
      if user.level != newLevel then
        (Ok((newLevel, current)), s.(users := UpdateUser(s.users, userId, user.(level := newLevel), false)))
      else
        (Ok((user.level, current)), s)
  }

  /** What `addPointsToUser` returns: `false` for a missing user, the success record, or the
      caught error (no step of the model throws, so this last form is never produced). */
  datatype AddPoints =
    | NotFound
    | Added(newPoints: int, newLevel: Level, pointsAdded: int, reason: string)
    | Failed(error: string)

  /** `addPointsToUser(userId, delta, reason)`: a missing user gives `false` and no write;
      otherwise points and level are overwritten with the old total plus `delta` and its level,
      no notification is created, and the update's hook runs on the pre-update record. */
  function AddPointsToUser(s: Store, userId: Id, delta: int, reason: string): (r: (AddPoints, Store))
    ensures userId >= |s.users| ==> r.0 == NotFound && r.1 == s
    ensures userId < |s.users| ==>
      var before := s.users[userId];
      var total := PointsOrZero(before) + delta;
      && |r.1.users| == |s.users|
      && r.0 == Added(total, CalculateLevel(total), delta, reason)
      && r.1.users[userId].points == Some(total)
      && r.1.users[userId].(points := before.points, level := before.level) == before
      && (LevelConsistent(before) ==> r.1.users[userId].level == CalculateLevel(total))
      && (!LevelConsistent(before) ==> r.1.users[userId].level == CalculateLevel(PointsOrZero(before)))
      && (forall j :: 0 <= j < |s.users| && j != userId ==> r.1.users[j] == s.users[j])
      && r.1 == s.(users := r.1.users)
    ensures !r.0.Failed?
  {
    if userId >= |s.users| then (NotFound, s)
    else
      var user := s.users[userId];
      var newPoints := PointsOrZero(user) + delta;
      var newLevel := CalculateLevel(newPoints);
      var updated := user.(points := Some(newPoints), level := newLevel);
      UpdateReturningOldLevel(s.users, userId, updated);
      (Added(newPoints, newLevel, delta, reason), s.(users := UpdateUser(s.users, userId, updated, false)))
  }

  /** A stale stored level survives `addPointsToUser`: the hook recomputes from the pre-update
      points and overwrites the freshly written level. */
  lemma AddPointsStaleLevelCounterexample()
    ensures var u := NewUser("Ann", "ann@example.com", "secret", "Pune", "").(points := Some(40), level := Gold);
            var s := Store([u], [], [], [], [], []);
            var t := AddPointsToUser(s, 0, 15, "Book added").1;
            t.users[0].points == Some(55) && t.users[0].level == Bronze && CalculateLevel(55) == Silver
  {
  }

  /** `t` is `s` with `delta` added to the points of user `userId` (when stored) and nothing else
      changed apart from that user's level. */
  predicate Credited(s: Store, t: Store, userId: Id, delta: int) {
    && |t.users| == |s.users|
    && t == s.(users := t.users)
    && (userId < |s.users| ==>
          && t.users[userId].points == Some(PointsOrZero(s.users[userId]) + delta)
          && t.users[userId].(points := s.users[userId].points, level := s.users[userId].level) == s.users[userId])
    && (forall j :: 0 <= j < |s.users| && j != userId ==> t.users[j] == s.users[j])
  }

  function AddPointsForBook(s: Store, userId: Id): (r: (AddPoints, Store))
    ensures r.0.Added? ==> r.0.pointsAdded == ADD_BOOK
    ensures r.0.Added? <==> userId < |s.users|
    ensures Credited(s, r.1, userId, ADD_BOOK)
  {
    AddPointsToUser(s, userId, 15, "Book added")
  }

  function AddPointsForExchange(s: Store, userId: Id): (r: (AddPoints, Store))
    ensures r.0.Added? ==> r.0.pointsAdded == COMPLETE_EXCHANGE
    ensures r.0.Added? <==> userId < |s.users|
    ensures Credited(s, r.1, userId, COMPLETE_EXCHANGE)
  {
    AddPointsToUser(s, userId, 20, "Exchange completed")
  }

  function AddPointsForRating(s: Store, userId: Id): (r: (AddPoints, Store))
    ensures r.0.Added? ==> r.0.pointsAdded == GIVE_RATING
    ensures r.0.Added? <==> userId < |s.users|
    ensures Credited(s, r.1, userId, GIVE_RATING)
  {
    AddPointsToUser(s, userId, 5, "Rating given")
  }

  function AddPointsForFiveStarRating(s: Store, userId: Id): (r: (AddPoints, Store))
    ensures r.0.Added? ==> r.0.pointsAdded == RECEIVE_5_STAR_RATING
    ensures r.0.Added? <==> userId < |s.users|
    ensures Credited(s, r.1, userId, RECEIVE_5_STAR_RATING)
  {
    AddPointsToUser(s, userId, 10, "Received 5-star rating")
  }
}

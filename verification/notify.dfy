/** The notification builders of src/lib/notifications.js. Each builds an unread notification,
    saves it and rethrows a failed save. Their three types are not in the Notification schema's
    type enum, so every one of these saves fails validation. */
module Notify {
  import opened Wrappers
  import opened Text
  import opened Points
  import opened Models
  import opened Db

  function LevelUpRecord(userId: Id, level: Level, points: int): (n: Notification)
    ensures n.userId == userId && n.kind == "level_up" && !n.isRead
    ensures IsInfix(LevelName(level), n.message) && IsInfix(IntToString(points), n.message)
  {
    var prefix := "Congratulations! You've reached ";
    var middle := " level with ";
    var suffix := " points!";
    var lv := LevelName(level);
    var pts := IntToString(points);
    InfixAfter(prefix, lv);
    InfixLeft(lv, prefix + lv, middle);
    InfixLeft(lv, prefix + lv + middle, pts);
    InfixLeft(lv, prefix + lv + middle + pts, suffix);
    InfixAfter(prefix + lv + middle, pts);
    InfixLeft(pts, prefix + lv + middle + pts, suffix);
    NewNotification(userId, "level_up", "Level Up! \U{1F389}",
      prefix + LevelName(level) + middle + IntToString(points) + suffix, None, None)
  }

  function PointsRecord(userId: Id, points: int, reason: string): (n: Notification)
    ensures n.userId == userId && n.kind == "points_earned" && !n.isRead
    ensures IsInfix(IntToString(points), n.message) && IsInfix(reason, n.message)
  {
    var prefix := "You earned ";
    var middle := " points for ";
    var pts := IntToString(points);
    InfixAfter(prefix, pts);
    InfixLeft(pts, prefix + pts, middle);
    InfixLeft(pts, prefix + pts + middle, reason);
    InfixLeft(pts, prefix + pts + middle + reason, "!");
    InfixAfter(prefix + pts + middle, reason);
    InfixLeft(reason, prefix + pts + middle + reason, "!");
    NewNotification(userId, "points_earned", "Points Earned! \U{2B50}",
      prefix + IntToString(points) + middle + reason + "!", None, None)
  }

  /** The three wordings of a leaderboard notification. */
  datatype Band = Podium | TopTen | Climbing

  function LeaderboardBand(position: int): (b: Band)
    ensures b == Podium <==> position <= 3
    ensures b == TopTen <==> 3 < position <= 10
    ensures b == Climbing <==> 10 < position
  {
    if position <= 3 then Podium else if position <= 10 then TopTen else Climbing
  }

  /** Both numbers occur in `a + p + b + t + c`. */
  lemma NumbersOccur(a: string, p: string, b: string, t: string, c: string)
    ensures IsInfix(p, a + p + b + t + c) && IsInfix(t, a + p + b + t + c)
  {
    InfixAfter(a, p);
    InfixLeft(p, a + p, b);
    InfixLeft(p, a + p + b, t);
    InfixLeft(p, a + p + b + t, c);
    InfixAfter(a + p + b, t);
    InfixLeft(t, a + p + b + t, c);
  }

  function LeaderboardText(position: int, totalUsers: int): (msg: string)
    ensures IsInfix(IntToString(position), msg) && IsInfix(IntToString(totalUsers), msg)
  {
    var p := IntToString(position);
    var t := IntToString(totalUsers);
    match LeaderboardBand(position)
    case Podium =>
      NumbersOccur("\U{1F3C6} You're in the top ", p, " of ", t, " users! Keep it up!");
      "\U{1F3C6} You're in the top " + p + " of " + t + " users! Keep it up!"
    case TopTen =>
      NumbersOccur("\U{1F3AF} You're in the top 10! Currently at position ", p, " of ", t, " users.");
      "\U{1F3AF} You're in the top 10! Currently at position " + p + " of " + t + " users."
    case Climbing =>
      NumbersOccur("\U{1F4C8} You're at position ", p, " of ", t, " users. Keep trading books to climb higher!");
      "\U{1F4C8} You're at position " + p + " of " + t + " users. Keep trading books to climb higher!"
  }

  function LeaderboardRecord(userId: Id, position: int, totalUsers: int): (n: Notification)
    ensures n.userId == userId && n.kind == "leaderboard_position" && !n.isRead
    ensures IsInfix(IntToString(position), n.message) && IsInfix(IntToString(totalUsers), n.message)
  {
    NewNotification(userId, "leaderboard_position", "Leaderboard Update \U{1F4CA}",
      LeaderboardText(position, totalUsers), None, None)
  }

  /** `createLevelUpNotification`: the save always fails, and the failure is rethrown. */
  function CreateLevelUpNotification(s: Store, userId: Id, level: Level, points: int): (r: Result<Store>)
    ensures r.Err?
  {
    SaveNotification(s, LevelUpRecord(userId, level, points))
  }

  /** `createPointsNotification`: the save always fails, and the failure is rethrown. */
  function CreatePointsNotification(s: Store, userId: Id, points: int, reason: string): (r: Result<Store>)
    ensures r.Err?
  {
    SaveNotification(s, PointsRecord(userId, points, reason))
  }

  /** `createLeaderboardNotification`: the save always fails, and the failure is rethrown. */
  function CreateLeaderboardNotification(s: Store, userId: Id, position: int, totalUsers: int): (r: Result<Store>)
    ensures r.Err?
  {
    SaveNotification(s, LeaderboardRecord(userId, position, totalUsers))
  }
}

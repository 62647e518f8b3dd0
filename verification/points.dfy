/** The level tiers, the threshold map from points to level, and the reward table. */
module Points {

  datatype Level = Bronze | Silver | Gold | Platinum | Diamond

  /** Position of a level in the order Bronze < Silver < Gold < Platinum < Diamond. */
  function Tier(l: Level): nat {
    match l
    case Bronze => 0
    case Silver => 1
    case Gold => 2
    case Platinum => 3
    case Diamond => 4
  }

  /** The fewest points a user needs to hold a level (the threshold table). */
  function MinPoints(l: Level): int {
    match l
    case Bronze => 0
    case Silver => 50
    case Gold => 200
    case Platinum => 500
    case Diamond => 1000
  }

  /** The level one tier up, if any. */
  function Next(l: Level): Level
    requires l != Diamond
  {
    match l
    case Bronze => Silver
    case Silver => Gold
    case Gold => Platinum
    case Platinum => Diamond
  }

  function LevelName(l: Level): string {
    match l
    case Bronze => "Bronze"
    case Silver => "Silver"
    case Gold => "Gold"
    case Platinum => "Platinum"
    case Diamond => "Diamond"
  }

  /** `calculateLevel` of src/lib/points.js: the highest tier whose threshold the points reach
      (every total below 50, negative ones included, is Bronze). */
  function CalculateLevel(points: int): (l: Level)
    ensures l == Bronze || MinPoints(l) <= points
    ensures l == Diamond || points < MinPoints(Next(l))
  {
    if points >= 1000 then Diamond
    else if points >= 500 then Platinum
    else if points >= 200 then Gold
    else if points >= 50 then Silver
    else Bronze
  }

  /** The level is determined by the threshold table alone: a level satisfying both bounds is the
      computed one. */
  lemma LevelIsUniqueByThresholds(points: int, l: Level)
    requires l == Bronze || MinPoints(l) <= points
    requires l == Diamond || points < MinPoints(Next(l))
    ensures CalculateLevel(points) == l
  {
  }

  /** More points never give a lower level. */
  lemma CalculateLevelMonotone(p: int, q: int)
    requires p <= q
    ensures Tier(CalculateLevel(p)) <= Tier(CalculateLevel(q))
  {
  }

  /** The level is at least the tier whose threshold is reached. */
  lemma ThresholdReached(points: int, l: Level)
    requires MinPoints(l) <= points
    ensures Tier(l) <= Tier(CalculateLevel(points))
  {
  }

  /** The `calculateLevel` method of the User schema (src/models/User.js): the same thresholds,
      with missing points read as 0. */
  function UserMethodLevel(points: int): (l: Level)
    ensures l == CalculateLevel(points)
  {
    if points >= 1000 then Diamond
    else if points >= 500 then Platinum
    else if points >= 200 then Gold
    else if points >= 50 then Silver
    else Bronze
  }

  const ADD_BOOK: int := 15
  const COMPLETE_EXCHANGE: int := 20
  const GIVE_RATING: int := 5
  const RECEIVE_5_STAR_RATING: int := 10
  const CREATE_FORUM_POST: int := 10
  const REPLY_FORUM_POST: int := 5
}

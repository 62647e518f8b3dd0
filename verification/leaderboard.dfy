/** The public leaderboard of src/app/api/leaderboard/route.js: the users ranked by points,
    completed exchanges or rating, the first `limit` of them numbered from 1, and the number of
    stored users. */
module Leaderboard {
  import opened Wrappers
  import opened Models
  import opened Sorting

  /** The ranking criterion; any `type` other than "exchanges" or "rating" ranks by points. */
  datatype Criterion = ByPoints | ByExchanges | ByRating

  function CriterionOf(kind: string): (c: Criterion)
    ensures c == ByExchanges <==> kind == "exchanges"
    ensures c == ByRating <==> kind == "rating"
  {
    match kind
    case "exchanges" => ByExchanges
    case "rating" => ByRating
    case _ => ByPoints
  }

  /** The value a user is ranked by; a user without the field ranks below every number. The
      secondary rating key names a field the user schema does not have, so it ties everyone. */
  function RankValue(u: User, c: Criterion): SortKey {
    match c
    case ByPoints => if u.points.Some? then Num(u.points.value as real) else Missing
    case ByExchanges => if u.totalExchanges.Some? then Num(u.totalExchanges.value as real) else Missing
    case ByRating => Num(u.rating)
  }

  function UserKey(users: seq<User>, c: Criterion): Id -> SortKey {
    (id: Id) => if id < |users| then RankValue(users[id], c) else Missing
  }

  /** The ids 0 .. n-1 in order. */
  function AllIds(n: nat): (ids: seq<Id>)
    ensures |ids| == n
    ensures forall i :: 0 <= i < n ==> ids[i] == i
  {
    seq(n, i requires 0 <= i < n => i)
  }

  /** Every user exactly once, in descending order of the criterion, ties in registration order
      (see `SortDescStable`). */
  function Ranking(users: seq<User>, c: Criterion): (r: seq<Id>)
    ensures |r| == |users|
    ensures forall i :: i in r <==> 0 <= i < |users|
    ensures forall k :: 0 <= k < |r| ==> r[k] < |users|
    ensures forall a, b :: 0 <= a < b < |r| ==> r[a] != r[b]
    ensures forall a, b :: 0 <= a < b < |r| ==> KeyLe(RankValue(users[r[b]], c), RankValue(users[r[a]], c))
  {
    var ids := AllIds(|users|);
    var r := SortDesc<Id>(ids, UserKey(users, c));
    Rearranged(ids, r);
    assert forall i :: i in ids <==> 0 <= i < |users| by {
      forall i ensures i in ids <==> 0 <= i < |users| {
        if 0 <= i < |users| {
          assert ids[i] == i;
        }
      }
    }
    assert forall k :: 0 <= k < |r| ==> r[k] < |users| by {
      forall k | 0 <= k < |r|
        ensures r[k] < |users|
      {
        assert r[k] in r;
      }
    }
    r
  }

  /** One leaderboard row: the user and its rank. */
  datatype Row = Row(user: Id, rank: nat)

  datatype Board = Board(leaderboard: seq<Row>, kind: string, totalUsers: nat)

  /** `GET /api/leaderboard` (no authentication). The type defaults to "points" and the limit to
      10 (a negative limit is taken by its size, as the document store does). Row k holds rank
      k + 1; no unlisted user outranks the last listed one. */
  function GetLeaderboard(users: seq<User>, kindParam: Option<string>, limitParam: Option<int>): (r: Reply<Board>)
    ensures r.Success? && r.status == 200
    ensures r.body.kind == OrElse(kindParam, "points") && r.body.totalUsers == |users|
    ensures var limit := ParamOr(limitParam, 10);
            var size := if limit < 0 then -limit else limit;
            |r.body.leaderboard| == if size < |users| then size else |users|
    ensures var rows := r.body.leaderboard;
            && (forall k :: 0 <= k < |rows| ==> rows[k].rank == k + 1 && rows[k].user < |users|)
            && (forall a, b :: 0 <= a < b < |rows| ==> rows[a].user != rows[b].user)
    ensures var rows := r.body.leaderboard;
            var c := CriterionOf(OrElse(kindParam, "points"));
            forall a, b :: 0 <= a < b < |rows| ==>
              KeyLe(RankValue(users[rows[b].user], c), RankValue(users[rows[a].user], c))
  {
    var kind := OrElse(kindParam, "points");
    var limit := ParamOr(limitParam, 10);
    var ranked := Window(Ranking(users, CriterionOf(kind)), 0, if limit < 0 then -limit else limit);
    Success(200, Board(seq(|ranked|, k requires 0 <= k < |ranked| => Row(ranked[k], k + 1)), kind, |users|))
  }

  /** The listed users are the top of the ranking: every user left off the board ranks no higher
      than the last listed one. */
  lemma BoardHoldsTheTop(users: seq<User>, kindParam: Option<string>, limitParam: Option<int>, i: Id)
    requires i < |users|
    requires var rows := GetLeaderboard(users, kindParam, limitParam).body.leaderboard;
             rows != [] && forall k :: 0 <= k < |rows| ==> rows[k].user != i
    ensures var rows := GetLeaderboard(users, kindParam, limitParam).body.leaderboard;
            var c := CriterionOf(OrElse(kindParam, "points"));
            KeyLe(RankValue(users[i], c), RankValue(users[rows[|rows| - 1].user], c))
  {
    var c := CriterionOf(OrElse(kindParam, "points"));
    var rows := GetLeaderboard(users, kindParam, limitParam).body.leaderboard;
    var ranking := Ranking(users, c);
    assert forall k :: 0 <= k < |rows| ==> rows[k].user == ranking[k];
    assert i in ranking;
    var p :| 0 <= p < |ranking| && ranking[p] == i;
    assert p >= |rows|;
    assert KeyLe(RankValue(users[ranking[p]], c), RankValue(users[ranking[|rows| - 1]], c));
  }
}

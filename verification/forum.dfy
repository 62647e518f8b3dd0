/** The forum handlers of src/app/api/forum/route.js: one page of posts, filtered and sorted, and
    creating a post (which earns the author the forum-post reward). Pattern matching (`$regex`
    with the `i` option) is the parameter `matches(pattern, text)`, and whether a pattern
    compiles is the parameter `valid(pattern)`; the clock is the parameter `now`. */
module Forum {
  import opened Wrappers
  import opened Points
  import opened Models
  import opened Db
  import opened Sorting
  import opened Auth
  import opened Awards

  // ---------------------------------------------------------------- GET

  datatype ForumQuery = ForumQuery(
    page: Option<int>,
    limit: Option<int>,
    category: Option<string>,
    search: Option<string>,
    sortBy: Option<string>,
    sortOrder: Option<string>)

  /** A post the query selects: the exact category when one is given, and a search pattern found
      in the title, the content or one of the tags. */
  predicate Selected(q: ForumQuery, matches: (string, string) -> bool, p: Post) {
    && (Truthy(q.category) ==> p.category == q.category.value)
    && (Truthy(q.search) ==>
          var pat := q.search.value;
          matches(pat, p.title) || matches(pat, p.content) || exists t :: t in p.tags && matches(pat, t))
  }

  /** The numeric fields a listing can be sorted on; `Unsorted` stands for any other field name. */
  datatype SortField = LastActivity | CreatedAt | Views | Unsorted

  /** The `sortBy` parameter, "lastActivity" when absent or empty. */
  function FieldOf(sortBy: Option<string>): (f: SortField)
    ensures !Truthy(sortBy) ==> f == LastActivity
    ensures f == CreatedAt <==> sortBy == Some("createdAt")
    ensures f == Views <==> sortBy == Some("views")
  {
    match OrElse(sortBy, "lastActivity")
    case "lastActivity" => LastActivity
    case "createdAt" => CreatedAt
    case "views" => Views
    case _ => Unsorted
  }

  /** The value post `id` sorts by: creation order is the id; an unknown field ties every post. */
  function FieldValue(posts: seq<Post>, id: Id, f: SortField): int
    requires id < |posts|
  {
    match f
    case LastActivity => posts[id].lastActivity
    case CreatedAt => id
    case Views => posts[id].views
    case Unsorted => 0
  }

  /** The sort key handed to the descending sort: the field value, negated for ascending order. */
  function RankKey(posts: seq<Post>, f: SortField, desc: bool): Id -> SortKey {
    (id: Id) => if id < |posts| then Num((if desc then FieldValue(posts, id, f) else -FieldValue(posts, id, f)) as real) else Missing
  }

  /** The ids of `posts` in `ids` ordered by the field: descending or ascending, ties in their
      order in `ids`. A re-arrangement of `ids`. */
  function RankPosts(posts: seq<Post>, ids: seq<Id>, f: SortField, desc: bool): (r: seq<Id>)
    requires forall k :: 0 <= k < |ids| ==> ids[k] < |posts|
    ensures multiset(r) == multiset(ids)
    ensures forall k :: 0 <= k < |r| ==> r[k] < |posts|
    ensures desc ==> forall a, b :: 0 <= a < b < |r| ==> FieldValue(posts, r[b], f) <= FieldValue(posts, r[a], f)
    ensures !desc ==> forall a, b :: 0 <= a < b < |r| ==> FieldValue(posts, r[a], f) <= FieldValue(posts, r[b], f)
  {
    var key := RankKey(posts, f, desc);
    var r := SortDesc<Id>(ids, key);
    assert forall k :: 0 <= k < |r| ==> r[k] < |posts| by {
      forall k | 0 <= k < |r|
        ensures r[k] < |posts|
      {
        assert r[k] in multiset(ids);
      }
    }
    r
  }

  /** How many stored posts the query selects. */
  function SelectedCount(s: Store, q: ForumQuery, matches: (string, string) -> bool): nat {
    CountIf(s.posts, (p: Post) => Selected(q, matches, p))
  }

  /** Every selected post exactly once, ordered by the sort field: descending when the order is
      "desc" (the default), ascending otherwise. */
  function Ranked(s: Store, q: ForumQuery, matches: (string, string) -> bool): (ranked: seq<Id>)
    ensures forall i :: i in ranked <==> 0 <= i < |s.posts| && Selected(q, matches, s.posts[i])
    ensures |ranked| == SelectedCount(s, q, matches)
    ensures forall k :: 0 <= k < |ranked| ==> ranked[k] < |s.posts|
    ensures forall a, b :: 0 <= a < b < |ranked| ==> ranked[a] != ranked[b]
    ensures OrElse(q.sortOrder, "desc") == "desc" ==> forall a, b :: 0 <= a < b < |ranked| ==>
      FieldValue(s.posts, ranked[b], FieldOf(q.sortBy)) <= FieldValue(s.posts, ranked[a], FieldOf(q.sortBy))
    ensures OrElse(q.sortOrder, "desc") != "desc" ==> forall a, b :: 0 <= a < b < |ranked| ==>
      FieldValue(s.posts, ranked[a], FieldOf(q.sortBy)) <= FieldValue(s.posts, ranked[b], FieldOf(q.sortBy))
  {
    var sel := (p: Post) => Selected(q, matches, p);
    var ids := OldestFirst(s.posts, sel);
    var ranked := RankPosts(s.posts, ids, FieldOf(q.sortBy), OrElse(q.sortOrder, "desc") == "desc");
    ListingsCount(s.posts, sel);
    Rearranged(ids, ranked);
    ranked
  }

  datatype ForumPage = ForumPage(posts: seq<Id>, pagination: Pagination)

  /** `GET /api/forum` (no authentication). The page defaults to 1 and the limit to 10; a search
      that does not compile as a regular expression (the handler builds one for the tags) or a
      negative skip makes the request fail (500). Otherwise one page of the ranked selection is returned, with
      a pagination block that counts every selected post. */
  function ListPosts(s: Store, q: ForumQuery, matches: (string, string) -> bool, valid: string -> bool)
    : (r: Reply<ForumPage>)
    ensures var page := ParamOr(q.page, 1);
            var limit := ParamOr(q.limit, 10);
            && (r.Failure? <==> (Truthy(q.search) && !valid(q.search.value)) || (page - 1) * limit < 0)
            && (r.Failure? ==> r == Failure(500, "Internal server error"))
    ensures r.Success? ==>
      var page := ParamOr(q.page, 1);
      var limit := ParamOr(q.limit, 10);
      && r.status == 200
      && r.body.posts == Window(Ranked(s, q, matches), (page - 1) * limit, if limit < 0 then -limit else limit)
      && r.body.pagination == Paginate(page, limit, SelectedCount(s, q, matches))
  {
    var page := ParamOr(q.page, 1);
    var limit := ParamOr(q.limit, 10);
    var skip := (page - 1) * limit;
    if (Truthy(q.search) && !valid(q.search.value)) || skip < 0 then Failure(500, "Internal server error")
    else
      var ranked := Ranked(s, q, matches);
      Success(200, ForumPage(Window(ranked, skip, if limit < 0 then -limit else limit),
                             Paginate(page, limit, SelectedCount(s, q, matches))))
  }

  /** With the default query every post is listed on the pages, most recently active first. */
  lemma {:induction false} DefaultOrderIsMostRecentActivity(s: Store, matches: (string, string) -> bool,
                                                             valid: string -> bool)
    ensures var r := ListPosts(s, ForumQuery(None, None, None, None, None, None), matches, valid);
            && r.Success?
            && |r.body.posts| == (if |s.posts| <= 10 then |s.posts| else 10)
            && forall a, b :: 0 <= a < b < |r.body.posts| ==>
                 r.body.posts[a] < |s.posts| && r.body.posts[b] < |s.posts|
                 && s.posts[r.body.posts[b]].lastActivity <= s.posts[r.body.posts[a]].lastActivity
  {
    var q := ForumQuery(None, None, None, None, None, None);
    CountIfAll(s.posts, (p: Post) => Selected(q, matches, p));
    var ranked := Ranked(s, q, matches);
    assert ListPosts(s, q, matches, valid) ==
      Success(200, ForumPage(Window(ranked, 0, 10), Paginate(1, 10, SelectedCount(s, q, matches))));
    var listed := Window(ranked, 0, 10);
    forall a, b | 0 <= a < b < |listed|
      ensures listed[a] < |s.posts| && listed[b] < |s.posts|
      ensures s.posts[listed[b]].lastActivity <= s.posts[listed[a]].lastActivity
    {
      assert listed[a] == ranked[a] && listed[b] == ranked[b];
      assert FieldValue(s.posts, ranked[b], LastActivity) <= FieldValue(s.posts, ranked[a], LastActivity);
    }
  }

  /** A `sortBy` naming none of the three known fields ties every post, so the selected posts come
      out in creation order, whichever direction is asked for. */
  lemma {:induction false} UnknownFieldKeepsCreationOrder(s: Store, q: ForumQuery, matches: (string, string) -> bool)
    requires FieldOf(q.sortBy) == Unsorted
    ensures var ranked := Ranked(s, q, matches);
            forall a, b :: 0 <= a < b < |ranked| ==> ranked[a] < ranked[b]
  {
    var ids := OldestFirst(s.posts, (p: Post) => Selected(q, matches, p));
    var key := RankKey(s.posts, Unsorted, OrElse(q.sortOrder, "desc") == "desc");
    forall i | 0 <= i < |ids|
      ensures key(ids[i]) == Num(0.0)
    {
    }
    SortAllTied<Id>(ids, key, Num(0.0));
    assert Ranked(s, q, matches) == ids;
  }

  /** A filter every element passes counts every element. */
  lemma {:induction false} CountIfAll<T>(s: seq<T>, p: T -> bool)
    requires forall x :: p(x)
    ensures CountIf(s, p) == |s|
    decreases |s|
  {
    if s != [] {
      CountIfAll(s[..|s| - 1], p);
    }
  }

  // ---------------------------------------------------------------- POST

  datatype PostForm = PostForm(title: Option<string>, content: Option<string>, category: Option<string>,
                               tags: Option<seq<string>>)

  /** `POST /api/forum`: Bearer authentication, then a title and content (400). The post is saved
      with category "general" and no tags by default (a category outside the enum fails with 500,
      nothing stored). Then the author is awarded the forum-post reward; for an author who is not
      stored that award throws, so the reply is 500 although the post stays. */
  function CreatePost(s: Store, header: Option<string>, tokens: map<string, Id>, f: PostForm, now: int)
    : (r: (Reply<Id>, Store))
    ensures var c := BearerCaller(header, tokens, "Authentication required");
            && (c.Denied? ==> r == (Failure(c.status, c.error), s))
            && (c.Caller? && (!Truthy(f.title) || !Truthy(f.content)) ==>
                  r == (Failure(400, "Title and content are required"), s))
    ensures r.0.Failure? && r.1 != s ==>
      r.0 == Failure(500, "Internal server error")
      && BearerCaller(header, tokens, "Authentication required").id >= |s.users|
      && r.1 == s.(posts := r.1.posts) && |r.1.posts| == |s.posts| + 1
    ensures r.0.Success? <==>
      var c := BearerCaller(header, tokens, "Authentication required");
      c.Caller? && Truthy(f.title) && Truthy(f.content) && c.id < |s.users|
      && OrElse(f.category, "general") in Categories
    ensures r.0.Success? ==>
      var me := BearerCaller(header, tokens, "Authentication required").id;
      var post := NewPost(f.title.value, f.content.value, me, OrElse(f.category, "general"), f.tags.GetOr([]), now);
      && r.0 == Success(201, |s.posts|)
      && r.1.posts == s.posts + [post]
      && r.1 == AwardPoints(s.(posts := s.posts + [post]), me, CREATE_FORUM_POST, "Creating a forum post").1
      && r.1.users[me].points == Some(PointsOrZero(s.users[me]) + CREATE_FORUM_POST)
      && LevelConsistent(r.1.users[me])
  {
    match BearerCaller(header, tokens, "Authentication required")
    case Denied(status, error) => (Failure(status, error), s)
    case Caller(me) =>
      if !Truthy(f.title) || !Truthy(f.content) then (Failure(400, "Title and content are required"), s)
      else
        var post := NewPost(f.title.value, f.content.value, me, OrElse(f.category, "general"), f.tags.GetOr([]), now);
        if !ValidPost(post) then (Failure(500, "Internal server error"), s)
        else
          var s1 := s.(posts := s.posts + [post]);
          match AwardPoints(s1, me, 10, "Creating a forum post")
          case (Err(_), s2) => (Failure(500, "Internal server error"), s2)
          case (Ok(_), s2) => (Success(201, |s.posts|), s2)
  }
}

/** Descending sort by a key, as the document store's `.sort({field: -1})` does, and the
    page/limit arithmetic of the listing handlers. Documents lacking the field sort below every
    number; elements with equal keys keep their stored order. */
module Sorting {
  import opened Wrappers

  datatype SortKey = Missing | Num(n: real)

  /** `a` sorts no higher than `b`. */
  predicate KeyLe(a: SortKey, b: SortKey) {
    match a
    case Missing => true
    case Num(x) => b.Num? && x <= b.n
  }

  predicate SortedDesc<T>(s: seq<T>, key: T -> SortKey) {
    forall i, j :: 0 <= i < j < |s| ==> KeyLe(key(s[j]), key(s[i]))
  }

  /** `a` sorts strictly below `b`. */
  predicate KeyLt(a: SortKey, b: SortKey) {
    KeyLe(a, b) && a != b
  }

  /** Insert `x` into a descending sequence after every element whose key is strictly greater
      than its own, so that `x` goes ahead of the elements it ties with. */
  function Insert<T>(x: T, s: seq<T>, key: T -> SortKey): (r: seq<T>)
    requires SortedDesc(s, key)
    ensures SortedDesc(r, key)
    ensures multiset(r) == multiset(s) + multiset{x}
    ensures |r| == |s| + 1
    ensures forall e :: e in r ==> e == x || e in s
  {
    if s == [] then [x]
    else if KeyLt(key(x), key(s[0])) then
      var tail := Insert(x, s[1..], key);
      assert s == [s[0]] + s[1..];
      assert forall k :: 0 <= k < |tail| ==> KeyLe(key(tail[k]), key(s[0])) by {
        forall k | 0 <= k < |tail|
          ensures KeyLe(key(tail[k]), key(s[0]))
        {
          assert tail[k] in tail;
        }
      }
      [s[0]] + tail
    else
      [x] + s
  }

  /** The stored order re-arranged so that keys descend; elements with equal keys keep their
      stored order (see `SortDescStable`). */
  function SortDesc<T>(s: seq<T>, key: T -> SortKey): (r: seq<T>)
    ensures SortedDesc(r, key)
    ensures multiset(r) == multiset(s)
    ensures |r| == |s|
  {
    if s == [] then []
    else
      assert s == [s[0]] + s[1..];
      Insert(s[0], SortDesc(s[1..], key), key)
  }

  /** The elements of `s` whose key is `k`, in their order in `s`. */
  function Ties<T>(s: seq<T>, key: T -> SortKey, k: SortKey): seq<T> {
    if s == [] then [] else (if key(s[0]) == k then [s[0]] else []) + Ties(s[1..], key, k)
  }

  /** Inserting `x` puts it ahead of every element it ties with and moves nothing else among them. */
  lemma {:induction false} InsertTies<T>(x: T, s: seq<T>, key: T -> SortKey, k: SortKey)
    requires SortedDesc(s, key)
    ensures Ties(Insert(x, s, key), key, k) == (if key(x) == k then [x] else []) + Ties(s, key, k)
    decreases |s|
  {
    if s == [] {
      TiesCons(x, [], key, k);
    } else if KeyLt(key(x), key(s[0])) {
      var tail := Insert(x, s[1..], key);
      assert Insert(x, s, key) == [s[0]] + tail;
      TiesCons(s[0], tail, key, k);
      InsertTies(x, s[1..], key, k);
      assert s == [s[0]] + s[1..];
      TiesCons(s[0], s[1..], key, k);
      if key(s[0]) == k {
        assert key(x) != k;
      }
    } else {
      assert Insert(x, s, key) == [x] + s;
      TiesCons(x, s, key, k);
    }
  }

  lemma {:induction false} TiesCons<T>(x: T, s: seq<T>, key: T -> SortKey, k: SortKey)
    ensures Ties([x] + s, key, k) == (if key(x) == k then [x] else []) + Ties(s, key, k)
  {
    assert ([x] + s)[1..] == s;
  }

  /** The sort is stable: for every key, the elements carrying it come out in their stored order. */
  lemma {:induction false} SortDescStable<T>(s: seq<T>, key: T -> SortKey, k: SortKey)
    ensures Ties(SortDesc(s, key), key, k) == Ties(s, key, k)
    decreases |s|
  {
    if s != [] {
      SortDescStable(s[1..], key, k);
      InsertTies(s[0], SortDesc(s[1..], key), key, k);
    }
  }

  /** When every element carries the same key, the sort changes nothing. */
  lemma {:induction false} SortAllTied<T>(s: seq<T>, key: T -> SortKey, k: SortKey)
    requires forall i :: 0 <= i < |s| ==> key(s[i]) == k
    ensures SortDesc(s, key) == s
  {
    TiesAll(s, key, k);
    TiesAll(SortDesc(s, key), key, k) by {
      forall i | 0 <= i < |SortDesc(s, key)|
        ensures key(SortDesc(s, key)[i]) == k
      {
        assert SortDesc(s, key)[i] in multiset(s);
      }
    }
    SortDescStable(s, key, k);
  }

  /** Selecting the elements of key `k` from a sequence all of whose keys are `k` keeps them all. */
  lemma {:induction false} TiesAll<T>(s: seq<T>, key: T -> SortKey, k: SortKey)
    requires forall i :: 0 <= i < |s| ==> key(s[i]) == k
    ensures Ties(s, key, k) == s
    decreases |s|
  {
    if s != [] {
      TiesAll(s[1..], key, k);
      assert s == [s[0]] + s[1..];
    }
  }

  /** `.skip(skip).limit(limit)` over a result list (limit taken as a count of documents). */
  function Window<T>(s: seq<T>, skip: nat, limit: nat): (r: seq<T>)
    ensures |r| == if skip >= |s| then 0 else if skip + limit <= |s| then limit else |s| - skip
    ensures forall i :: 0 <= i < |r| ==> r[i] == s[skip + i]
  {
    if skip >= |s| then [] else if skip + limit <= |s| then s[skip..skip + limit] else s[skip..]
  }

  /** `parseInt(param) || fallback`: an absent, unparseable or zero parameter gives the fallback. */
  function ParamOr(param: Option<int>, fallback: int): (r: int)
    ensures param.Some? && param.value != 0 ==> r == param.value
    ensures param.None? || param.value == 0 ==> r == fallback
  {
    if param.Some? && param.value != 0 then param.value else fallback
  }

  /** `Math.ceil(total / limit)` for a nonzero limit; a negative limit gives a page count of at
      most zero. */
  function PageCount(total: nat, limit: int): (pages: int)
    requires limit != 0
    ensures limit > 0 ==> (pages - 1) * limit < total <= pages * limit || (total == 0 && pages == 0)
    ensures limit > 0 ==> pages >= 0
    ensures limit < 0 ==> pages <= 0
  {
    if limit > 0 then (total + limit - 1) / limit else -(total / -limit)
  }

  datatype Pagination = Pagination(currentPage: int, totalPages: int, total: nat, hasNext: bool, hasPrev: bool)

  /** The pagination block of the listing replies. With a positive limit and page, a next page is
      announced exactly when documents remain after this page; with a negative limit never. */
  function Paginate(page: int, limit: int, total: nat): (p: Pagination)
    requires limit != 0
    ensures p.total == total && p.currentPage == page
    ensures page >= 1 && limit > 0 ==> (p.hasNext <==> (page - 1) * limit + limit < total)
    ensures page >= 1 && limit < 0 ==> !p.hasNext
    ensures p.hasPrev <==> page > 1
  {
    var pages := PageCount(total, limit);
    assert page >= 1 && limit > 0 ==> (page < pages <==> (page - 1) * limit + limit < total) by {
      if page >= 1 && limit > 0 {
        PageArithmetic(page, limit, total, pages);
      }
    }
    Pagination(page, pages, total, page < pages, page > 1)
  }

  /** A later page exists exactly when documents remain after this page. */
  lemma PageArithmetic(page: int, limit: int, total: nat, pages: int)
    requires page >= 1 && limit >= 1
    requires (pages - 1) * limit < total <= pages * limit || (total == 0 && pages == 0)
    ensures page < pages <==> (page - 1) * limit + limit < total
  {
    if page < pages {
      assert page <= pages - 1;
      assert page * limit <= (pages - 1) * limit;
    }
    if page * limit < total {
      assert page * limit < pages * limit;
    }
  }

  /** The number of elements of `s` satisfying `p`. */
  function CountIf<T>(s: seq<T>, p: T -> bool): (n: nat)
    ensures n <= |s|
  {
    if s == [] then 0 else CountIf(s[..|s| - 1], p) + (if p(s[|s| - 1]) then 1 else 0)
  }

  lemma {:induction false} CountIfConcat<T>(a: seq<T>, b: seq<T>, p: T -> bool)
    ensures CountIf(a + b, p) == CountIf(a, p) + CountIf(b, p)
    decreases |b|
  {
    if b != [] {
      assert (a + b)[..|a + b| - 1] == a + b[..|b| - 1];
      CountIfConcat(a, b[..|b| - 1], p);
    } else {
      assert a + b == a;
    }
  }

  /** Removing the element at `k` removes its contribution to the count. */
  lemma {:induction false} CountIfRemove<T>(b: seq<T>, k: nat, p: T -> bool)
    requires k < |b|
    ensures CountIf(b, p) == CountIf(b[..k] + b[k + 1..], p) + (if p(b[k]) then 1 else 0)
  {
    var left, right := b[..k], b[k + 1..];
    assert b == (left + [b[k]]) + right;
    CountIfConcat(left + [b[k]], right, p);
    CountIfConcat(left, [b[k]], p);
    CountIfConcat(left, right, p);
    CountIfSingle(b[k], p);
  }

  lemma {:induction false} CountIfSingle<T>(x: T, p: T -> bool)
    ensures CountIf([x], p) == if p(x) then 1 else 0
  {
    assert [x][..0] == [];
  }

  /** Taking the element at `k` out of `b` takes one copy of it out of the multiset. */
  lemma {:induction false} MultisetRemove<T>(b: seq<T>, k: nat)
    requires k < |b|
    ensures multiset(b[..k] + b[k + 1..]) == multiset(b) - multiset{b[k]}
  {
    assert b == b[..k] + [b[k]] + b[k + 1..];
  }

  /** Counting depends only on which elements occur, and how often, not on their order. */
  lemma {:induction false} CountIfPermutation<T>(a: seq<T>, b: seq<T>, p: T -> bool)
    requires multiset(a) == multiset(b)
    ensures CountIf(a, p) == CountIf(b, p)
    decreases |a|
  {
    if a == [] {
      assert |b| == |multiset(b)| == 0;
    } else {
      var x := a[|a| - 1];
      var a' := a[..|a| - 1];
      assert a == a' + [x];
      assert multiset(a') == multiset(a) - multiset{x};
      assert x in multiset(b);
      var k :| 0 <= k < |b| && b[k] == x;
      MultisetRemove(b, k);
      CountIfPermutation(a', b[..k] + b[k + 1..], p);
      CountIfRemove(b, k, p);
    }
  }

  /** The documents of a collection paired with their ids. */
  function Enumerate<T>(s: seq<T>): (r: seq<(nat, T)>)
    ensures |r| == |s|
    ensures forall i :: 0 <= i < |s| ==> r[i] == (i, s[i])
  {
    seq(|s|, i requires 0 <= i < |s| => (i, s[i]))
  }

  /** Some element of `order` carries id `i`. */
  predicate Visits<T>(order: seq<(nat, T)>, i: nat) {
    exists k :: 0 <= k < |order| && order[k].0 == i
  }

  /** Every element of a re-arrangement of `Enumerate(s)` is a document paired with its own id,
      and every id occurs in it. */
  lemma EnumeratedPermutation<T>(s: seq<T>, order: seq<(nat, T)>)
    requires multiset(order) == multiset(Enumerate(s))
    ensures forall k :: 0 <= k < |order| ==> order[k].0 < |s| && order[k].1 == s[order[k].0]
    ensures forall i :: 0 <= i < |s| ==> Visits(order, i)
  {
    var e := Enumerate(s);
    forall k | 0 <= k < |order|
      ensures order[k].0 < |s| && order[k].1 == s[order[k].0]
    {
      assert order[k] in multiset(order);
      assert order[k] in e;
    }
    forall i | 0 <= i < |s|
      ensures Visits(order, i)
    {
      assert e[i] in multiset(e);
      assert e[i] in order;
      var k :| 0 <= k < |order| && order[k] == e[i];
    }
  }

  /** Counting over `Enumerate(s)` by the document part is counting over `s`. */
  lemma {:induction false} CountIfEnumerate<T>(s: seq<T>, p: T -> bool, q: ((nat, T)) -> bool)
    requires forall i, x :: q((i, x)) == p(x)
    ensures CountIf(Enumerate(s), q) == CountIf(s, p)
    decreases |s|
  {
    if s != [] {
      var s' := s[..|s| - 1];
      assert Enumerate(s)[..|s| - 1] == Enumerate(s');
      CountIfEnumerate(s', p, q);
    }
  }

  /** A re-arrangement of a strictly increasing sequence has the same members, the same length and
      no value twice. */
  lemma Rearranged(ids: seq<nat>, r: seq<nat>)
    requires forall x, y :: 0 <= x < y < |ids| ==> ids[x] < ids[y]
    requires multiset(r) == multiset(ids)
    ensures forall i :: i in r <==> i in ids
    ensures |r| == |ids|
    ensures forall a, b :: 0 <= a < b < |r| ==> r[a] != r[b]
  {
    assert |r| == |multiset(r)| == |multiset(ids)| == |ids|;
    forall i ensures i in r <==> i in ids {
      assert i in r <==> i in multiset(r);
      assert i in ids <==> i in multiset(ids);
    }
    forall a, b | 0 <= a < b < |r|
      ensures r[a] != r[b]
    {
      if r[a] == r[b] {
        var v := r[a];
        TwiceCounted(r, a, b);
        StrictlyIncreasingOnce(ids, v);
      }
    }
  }

  /** A value at two positions occurs at least twice. */
  lemma TwiceCounted(r: seq<nat>, a: nat, b: nat)
    requires a < b < |r| && r[a] == r[b]
    ensures multiset(r)[r[a]] >= 2
  {
    var v := r[a];
    var rest := r[..a] + r[a + 1..];
    assert r == r[..a] + [v] + r[a + 1..];
    assert rest[b - 1] == v;
    assert multiset(r) == multiset(rest) + multiset{v};
  }

  /** A strictly increasing sequence holds each value at most once. */
  lemma {:induction false} StrictlyIncreasingOnce(ids: seq<nat>, v: nat)
    requires forall x, y :: 0 <= x < y < |ids| ==> ids[x] < ids[y]
    ensures multiset(ids)[v] <= 1
    decreases |ids|
  {
    if ids != [] {
      var last := ids[|ids| - 1];
      var init := ids[..|ids| - 1];
      assert ids == init + [last];
      StrictlyIncreasingOnce(init, v);
      if v == last {
        assert v !in init;
      }
    }
  }
}

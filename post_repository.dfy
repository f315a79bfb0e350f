/** The queries of the posts repository, as functions over the posts table
    (a sequence of rows in storage order). Each `ORDER BY` is modelled by one
    fixed sort that keeps rows tying on every sort key in storage order; SQL
    leaves the order of such rows open, and it may differ between the queries
    for two pages. So the properties that look across pages (every row is on
    some page) assume that no two of the rows involved tie. A page is a window
    of the ordered result. */
module PostRepository {
  import opened Common
  import opened State

  /** The two orderings the queries use. */
  datatype Order =
    | NewestFirst    // ORDER BY createdAt DESC
    | MostLikedFirst // ORDER BY likesCount DESC, createdAt DESC

  /** `a` may be listed before `b` under `o`. */
  predicate Before(o: Order, a: PostRow, b: PostRow)
  {
    match o
    case NewestFirst => a.createdAt >= b.createdAt
    case MostLikedFirst =>
      a.likesCount > b.likesCount || (a.likesCount == b.likesCount && a.createdAt >= b.createdAt)
  }

  predicate Sorted(o: Order, s: seq<PostRow>)
  {
    forall i, j :: 0 <= i < j < |s| ==> Before(o, s[i], s[j])
  }

  /** Inserts `x` into a sorted sequence, ahead of the rows it ties with. */
  function Insert(o: Order, x: PostRow, s: seq<PostRow>): (r: seq<PostRow>)
    requires Sorted(o, s)
    ensures Sorted(o, r)
    ensures multiset(r) == multiset(s) + multiset{x}
  {
    if s == [] then [x]
    else if Before(o, x, s[0]) then
      InsertAtFront(o, x, s);
      [x] + s
    else
      var t := Insert(o, x, s[1..]);
      InsertBehind(o, x, s, t);
      [s[0]] + t
  }

  lemma InsertAtFront(o: Order, x: PostRow, s: seq<PostRow>)
    requires Sorted(o, s) && s != [] && Before(o, x, s[0])
    ensures Sorted(o, [x] + s)
    ensures multiset([x] + s) == multiset(s) + multiset{x}
  {
    forall j | 0 <= j < |s| ensures Before(o, x, s[j]) {
      if j > 0 { assert Before(o, s[0], s[j]); }
    }
  }

  lemma InsertBehind(o: Order, x: PostRow, s: seq<PostRow>, t: seq<PostRow>)
    requires Sorted(o, s) && s != [] && !Before(o, x, s[0])
    requires Sorted(o, t) && multiset(t) == multiset(s[1..]) + multiset{x}
    ensures Sorted(o, [s[0]] + t)
    ensures multiset([s[0]] + t) == multiset(s) + multiset{x}
  {
    assert s == [s[0]] + s[1..];
    forall j | 0 <= j < |t| ensures Before(o, s[0], t[j]) {
      assert t[j] in multiset(t);
      if t[j] != x {
        assert t[j] in multiset(s[1..]);
        var k :| 0 <= k < |s[1..]| && s[1..][k] == t[j];
        assert s[k + 1] == t[j];
      }
    }
  }

  /** Insertion sort: ordered by `o`, and a permutation of the input. */
  function Sort(o: Order, s: seq<PostRow>): (r: seq<PostRow>)
    ensures Sorted(o, r)
    ensures multiset(r) == multiset(s)
    ensures |r| == |s|
  {
    if s == [] then []
    else
      assert s == [s[0]] + s[1..];
      Insert(o, s[0], Sort(o, s[1..]))
  }

  /** How many of `n` rows page `page` of `size` rows holds: a full page,
      the remainder on the last page, none past the end. */
  function PageLength(n: nat, page: nat, size: nat): nat
  {
    if page * size >= n then 0 else if n - page * size < size then n - page * size else size
  }

  /** Zero-based page `page` of `size` rows of `s`. */
  function Page(s: seq<PostRow>, page: nat, size: nat): (r: seq<PostRow>)
    ensures |r| <= size
    ensures |r| == PageLength(|s|, page, size)
    ensures forall i :: 0 <= i < |r| ==> r[i] == s[page * size + i]
  {
    var lo := if page * size <= |s| then page * size else |s|;
    var hi := if lo + size <= |s| then lo + size else |s|;
    s[lo..hi]
  }

  /** A window of a sorted sequence is sorted. */
  lemma PageSorted(o: Order, s: seq<PostRow>, page: nat, size: nat)
    requires Sorted(o, s)
    ensures Sorted(o, Page(s, page, size))
  {
    var r := Page(s, page, size);
    forall i, j | 0 <= i < j < |r| ensures Before(o, r[i], r[j]) {
      assert r[i] == s[page * size + i] && r[j] == s[page * size + j];
    }
  }

  /** Every row of a window is a row of the listing. */
  lemma PageWithin(s: seq<PostRow>, page: nat, size: nat)
    ensures forall p :: p in Page(s, page, size) ==> p in s
  {
    var r := Page(s, page, size);
    forall p | p in r ensures p in s {
      var i :| 0 <= i < |r| && r[i] == p;
      assert s[page * size + i] == p;
    }
  }

  /** The rows written by one of `authors`, in table order. */
  function FromAuthors(t: seq<PostRow>, authors: set<UserId>): (r: seq<PostRow>)
    ensures forall p :: p in r <==> p in t && p.author in authors
    ensures |r| <= |t|
  {
    if t == [] then []
    else
      assert forall p :: p in t <==> p == t[0] || p in t[1..];
      (if t[0].author in authors then [t[0]] else []) + FromAuthors(t[1..], authors)
  }

  /** Nobody to select from: no rows. */
  lemma {:induction false} FromNobody(t: seq<PostRow>, authors: set<UserId>)
    ensures authors == {} ==> FromAuthors(t, authors) == []
  {
    if t != [] {
      FromNobody(t[1..], authors);
    }
  }

  /** The rows created at or after `since`, in table order. */
  function CreatedSince(t: seq<PostRow>, since: Time): (r: seq<PostRow>)
    ensures forall p :: p in r <==> p in t && p.createdAt >= since
    ensures |r| <= |t|
  {
    if t == [] then []
    else
      assert forall p :: p in t <==> p == t[0] || p in t[1..];
      (if t[0].createdAt >= since then [t[0]] else []) + CreatedSince(t[1..], since)
  }

  /** The followees of `userId` according to the users table. */
  function Followees(users: map<UserId, UserRow>, userId: UserId): set<UserId>
  {
    if userId in users then users[userId].following else {}
  }

  // ---------------------------------------------------------------- queries

  /** No two of `rows` share a creation time, so newest-first leaves no tie. */
  predicate DistinctTimes(rows: seq<PostRow>)
  {
    forall a, b :: a in rows && b in rows && a != b ==> a.createdAt != b.createdAt
  }

  /** findAllByOrderByCreatedAtDesc */
  function FindAllByOrderByCreatedAtDesc(t: seq<PostRow>, page: nat, size: nat): (r: seq<PostRow>)
    ensures Sorted(NewestFirst, r) && |r| <= size
    ensures forall p :: p in r ==> p in t
    ensures |r| == PageLength(|t|, page, size)
  {
    var sorted := Sort(NewestFirst, t);
    PageSorted(NewestFirst, sorted, page, size);
    PageWithin(sorted, page, size);
    assert forall p :: p in sorted ==> p in multiset(t);
    Page(sorted, page, size)
  }

  /** findByAuthorIdOrderByCreatedAtDesc: only `author`'s posts, newest first. */
  function FindByAuthorIdOrderByCreatedAtDesc(t: seq<PostRow>, author: UserId, page: nat, size: nat): (r: seq<PostRow>)
    ensures Sorted(NewestFirst, r) && |r| <= size
    ensures forall p :: p in r ==> p in t && p.author == author
    ensures |r| == PageLength(|FromAuthors(t, {author})|, page, size)
  {
    var mine := FromAuthors(t, {author});
    var sorted := Sort(NewestFirst, mine);
    PageSorted(NewestFirst, sorted, page, size);
    PageWithin(sorted, page, size);
    assert forall p :: p in sorted ==> p in multiset(mine);
    Page(sorted, page, size)
  }

  /** findFeedPosts: posts whose author `userId` follows, newest first. */
  function FindFeedPosts(t: seq<PostRow>, users: map<UserId, UserRow>, userId: UserId, page: nat, size: nat): (r: seq<PostRow>)
    ensures Sorted(NewestFirst, r) && |r| <= size
    ensures forall p :: p in r ==> p in t && p.author in Followees(users, userId)
    ensures Followees(users, userId) == {} ==> r == []
    ensures |r| == PageLength(|FromAuthors(t, Followees(users, userId))|, page, size)
  {
    var followed := FromAuthors(t, Followees(users, userId));
    var sorted := Sort(NewestFirst, followed);
    PageSorted(NewestFirst, sorted, page, size);
    PageWithin(sorted, page, size);
    assert forall p :: p in sorted ==> p in multiset(followed);
    FromNobody(t, Followees(users, userId));
    Page(sorted, page, size)
  }

  /** findTrendingPosts: posts created at or after `since`, most liked first,
      newest first among equally liked ones. */
  function FindTrendingPosts(t: seq<PostRow>, since: Time, page: nat, size: nat): (r: seq<PostRow>)
    ensures Sorted(MostLikedFirst, r) && |r| <= size
    ensures forall p :: p in r ==> p in t && p.createdAt >= since
    ensures |r| == PageLength(|CreatedSince(t, since)|, page, size)
  {
    var recent := CreatedSince(t, since);
    var sorted := Sort(MostLikedFirst, recent);
    PageSorted(MostLikedFirst, sorted, page, size);
    PageWithin(sorted, page, size);
    assert forall p :: p in sorted ==> p in multiset(recent);
    Page(sorted, page, size)
  }

  /** countByAuthorId */
  function CountByAuthorId(t: seq<PostRow>, author: UserId): nat
  {
    |FromAuthors(t, {author})|
  }

  // ---------------------------------------------------------------- properties

  /** Every row of `s` is on some page of `s` sorted by `o`. */
  lemma SortedCovers(o: Order, s: seq<PostRow>, size: nat, p: PostRow) returns (page: nat)
    requires size > 0 && p in s
    ensures p in Page(Sort(o, s), page, size)
  {
    var sorted := Sort(o, s);
    assert p in multiset(s);
    assert p in sorted;
    var j :| 0 <= j < |sorted| && sorted[j] == p;
    page := PageOf(sorted, j, size);
  }

  /** Every stored post is on some page of the newest-first listing, when no
      two posts were created at the same time. */
  lemma AllCoversPosts(t: seq<PostRow>, size: nat, p: PostRow)
    requires size > 0 && DistinctTimes(t)
    requires p in t
    ensures exists page: nat :: p in FindAllByOrderByCreatedAtDesc(t, page, size)
  {
    var page := SortedCovers(NewestFirst, t, size, p);
    assert p in FindAllByOrderByCreatedAtDesc(t, page, size);
  }

  /** Every post of `author` is on some page of that author's listing, when
      no two of those posts were created at the same time. */
  lemma AuthorCoversPosts(t: seq<PostRow>, author: UserId, size: nat, p: PostRow)
    requires size > 0 && DistinctTimes(FromAuthors(t, {author}))
    requires p in t && p.author == author
    ensures exists page: nat :: p in FindByAuthorIdOrderByCreatedAtDesc(t, author, page, size)
  {
    var page := SortedCovers(NewestFirst, FromAuthors(t, {author}), size, p);
    assert p in FindByAuthorIdOrderByCreatedAtDesc(t, author, page, size);
  }

  /** Every post of a followee is on some page of the feed, when no two
      followees' posts were created at the same time. */
  lemma FeedCoversFollowees(t: seq<PostRow>, users: map<UserId, UserRow>, userId: UserId, size: nat, p: PostRow)
    requires size > 0 && DistinctTimes(FromAuthors(t, Followees(users, userId)))
    requires p in t && p.author in Followees(users, userId)
    ensures exists page: nat :: p in FindFeedPosts(t, users, userId, page, size)
  {
    var page := SortedCovers(NewestFirst, FromAuthors(t, Followees(users, userId)), size, p);
    assert p in FindFeedPosts(t, users, userId, page, size);
  }

  /** Row `j` of a listing is on page `j / size`. */
  lemma PageOf(s: seq<PostRow>, j: nat, size: nat) returns (page: nat)
    requires size > 0 && j < |s|
    ensures page == j / size
    ensures s[j] in Page(s, page, size)
  {
    page := j / size;
    assert page * size <= j < page * size + size;
    assert Page(s, page, size)[j - page * size] == s[j];
  }

  /** A recent post left out of the trending list ranks no higher than any post in it. */
  lemma TrendingIsTopRanked(t: seq<PostRow>, since: Time, limit: nat, q: PostRow)
    requires q in t && q.createdAt >= since
    requires q !in FindTrendingPosts(t, since, 0, limit)
    ensures forall p :: p in FindTrendingPosts(t, since, 0, limit) ==> Before(MostLikedFirst, p, q)
  {
    var recent := CreatedSince(t, since);
    var sorted := Sort(MostLikedFirst, recent);
    var r := Page(sorted, 0, limit);
    assert r == FindTrendingPosts(t, since, 0, limit);
    assert q in multiset(sorted);
    var j :| 0 <= j < |sorted| && sorted[j] == q;
    forall p | p in r ensures Before(MostLikedFirst, p, q) {
      var i :| 0 <= i < |r| && r[i] == p;
      assert sorted[i] == p;
    }
  }

  /** When no more than `limit` posts are recent, the trending list holds all of them. */
  lemma TrendingHoldsAllWhenFew(t: seq<PostRow>, since: Time, limit: nat, q: PostRow)
    requires |CreatedSince(t, since)| <= limit
    requires q in t && q.createdAt >= since
    ensures q in FindTrendingPosts(t, since, 0, limit)
  {
    var recent := CreatedSince(t, since);
    var sorted := Sort(MostLikedFirst, recent);
    assert Page(sorted, 0, limit) == sorted;
    assert q in multiset(sorted);
  }

  lemma {:induction false} FromAuthorsAppend(a: seq<PostRow>, b: seq<PostRow>, authors: set<UserId>)
    ensures FromAuthors(a + b, authors) == FromAuthors(a, authors) + FromAuthors(b, authors)
  {
    if a == [] {
      assert a + b == b;
    } else {
      assert (a + b)[0] == a[0];
      assert (a + b)[1..] == a[1..] + b;
      FromAuthorsAppend(a[1..], b, authors);
    }
  }

  /** The ids below `n` of the posts `author` wrote. */
  function PostIdsBy(posts: map<PostId, PostRow>, author: UserId, n: nat): set<PostId>
  {
    set k | k in posts && 0 <= k < n && posts[k].author == author
  }

  /** Whether the row under id `k` is one of `author`'s posts. */
  function WroteAt(posts: map<PostId, PostRow>, author: UserId, k: int): nat
  {
    if k in posts && posts[k].author == author then 1 else 0
  }

  lemma PostIdsByStep(posts: map<PostId, PostRow>, author: UserId, n: nat)
    requires n > 0
    ensures |PostIdsBy(posts, author, n)| == |PostIdsBy(posts, author, n - 1)| + WroteAt(posts, author, n - 1)
  {
    if WroteAt(posts, author, n - 1) == 1 {
      assert n - 1 !in PostIdsBy(posts, author, n - 1);
      assert PostIdsBy(posts, author, n) == PostIdsBy(posts, author, n - 1) + {n - 1};
    } else {
      assert PostIdsBy(posts, author, n) == PostIdsBy(posts, author, n - 1);
    }
  }

  lemma CountStep(posts: map<PostId, PostRow>, author: UserId, n: nat)
    requires n > 0
    ensures CountByAuthorId(Table(posts, n), author) == CountByAuthorId(Table(posts, n - 1), author) + WroteAt(posts, author, n - 1)
  {
    var last := if n - 1 in posts then [posts[n - 1]] else [];
    FromAuthorsAppend(Table(posts, n - 1), last, {author});
    if WroteAt(posts, author, n - 1) == 1 {
      assert FromAuthors(last, {author}) == [posts[n - 1]];
    } else {
      assert FromAuthors(last, {author}) == [];
    }
  }

  /** Counting over the table scan counts the stored posts of that author. */
  lemma {:induction false} CountByAuthorIdCountsPosts(posts: map<PostId, PostRow>, n: nat, author: UserId)
    ensures CountByAuthorId(Table(posts, n), author) == |PostIdsBy(posts, author, n)|
  {
    if n > 0 {
      CountByAuthorIdCountsPosts(posts, n - 1, author);
      CountStep(posts, author, n);
      PostIdsByStep(posts, author, n);
    }
  }
}

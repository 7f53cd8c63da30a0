/** app/utils/post.ts: the post catalogue of the Remix version of the
    site.  A post's `date` is a `Date`; the comparator reads it with
    `getTime()`, so here it is that millisecond timestamp. */
module RemixPosts {
  import opened Base
  import opened StableSort
  import opened Catalog

  /** `post.date.getTime()`. */
  function DateOf(p: Post<int>): int {
    p.date
  }

  /** `sortByDate(posts, orderBy)`: sorts `posts` in place, stably, and
      returns the same array. */
  method SortByDate(posts: array<Post<int>>, orderBy: Order) returns (sortedData: array<Post<int>>)
    modifies posts
    ensures sortedData == posts
    ensures posts[..] == Sort(old(posts[..]), DateOf, orderBy)
    ensures multiset(posts[..]) == multiset(old(posts[..]))
    ensures orderBy == Desc ==> forall i, j :: 0 <= i < j < posts.Length ==> posts[i].date >= posts[j].date
    ensures orderBy == Asc ==> forall i, j :: 0 <= i < j < posts.Length ==> posts[i].date <= posts[j].date
    ensures SameOrderPerKey(posts[..], old(posts[..]), DateOf)
  {
    SortInPlace(posts, DateOf, orderBy);
    SortContract(old(posts[..]), DateOf, orderBy);
    sortedData := posts;
  }

  /** `getAllPosts(options)` over the imported modules `mods`: build the
      records, sort them, keep the first `limit`. */
  method GetAllPosts(mods: seq<PostModule<int>>, options: Options) returns (result: seq<Post<int>>)
    ensures result == Listing(mods, DateOf, options)
  {
    var orderBy := options.orderBy.GetOr(Desc);
    var posts := new Post<int>[|mods|](i requires 0 <= i < |mods| => PostFromModule(mods[i]));
    assert posts[..] == Posts(mods);
    var sortedPosts := SortByDate(posts, orderBy);
    result := SliceTo(sortedPosts[..], options.limit);
  }

  /** The home page's `getAllPosts({limit: 3})` over the five modules: the
      three newest posts, which are the first three of the full listing. */
  lemma HomePageShowsThreeNewest(mods: seq<PostModule<int>>)
    requires |mods| == 5
    ensures var all := Listing(mods, DateOf, NoOptions);
      var home := Listing(mods, DateOf, Options(None, Some(3)));
      && |all| == 5
      && home == all[..3]
      && forall i, j :: 0 <= i < 3 <= j < 5 ==> home[i].date >= all[j].date
  {
    ListingDefaults(mods, DateOf);
    ListingLimit(mods, DateOf, None, 3);
  }

  /** A three-post catalogue dated 2021-01-01, 2022-01-01 and 2020-01-01
      sorts newest first as b, a, c; `slice(0, 2)` of that is b, a. */
  lemma ThreePostScenario()
    ensures var a := Post("a", 1609459200000, "A", "", []);
      var b := Post("b", 1640995200000, "B", "", []);
      var c := Post("c", 1577836800000, "C", "", []);
      && Sort([a, b, c], DateOf, Desc) == [b, a, c]
      && SliceTo([b, a, c], Some(2)) == [b, a]
  {
    var a := Post("a", 1609459200000, "A", "", []);
    var b := Post("b", 1640995200000, "B", "", []);
    var c := Post("c", 1577836800000, "C", "", []);
    assert [a, b, c][..2] == [a, b] && [a, b][..1] == [a] && [a][..0] == [];
    assert Sort([a], DateOf, Desc) == [a];
    assert Insert([a], b, DateOf, Desc) == [b, a] by {
      assert Insert([], b, DateOf, Desc) == [b];
    }
    assert Sort([a, b], DateOf, Desc) == [b, a];
    assert Insert([b, a], c, DateOf, Desc) == [b, a, c];
  }
}

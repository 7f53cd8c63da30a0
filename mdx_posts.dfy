/** app/utils/mdx.ts: the same catalogue as app/utils/post.ts, but a
    post's `date` is the front-matter string and the comparator converts it
    with `Date.parse`.  `Date.parse` belongs to the JavaScript runtime, so
    it is the parameter `parse` here. */
module MdxPosts {
  import opened Base
  import opened StableSort
  import opened Catalog

  /** `post => Date.parse(post.date)`, the key the comparator subtracts. */
  function DateKey(parse: string -> int): Post<string> -> int {
    (p: Post<string>) => parse(p.date)
  }

  /** `sortByDate(data, orderBy)`: sorts `data` in place, stably, by
      parsed date, and returns the same array. */
  method SortByDate(data: array<Post<string>>, orderBy: Order, parse: string -> int)
    returns (sortedData: array<Post<string>>)
    modifies data
    ensures sortedData == data
    ensures data[..] == Sort(old(data[..]), DateKey(parse), orderBy)
    ensures multiset(data[..]) == multiset(old(data[..]))
    ensures orderBy == Desc ==> forall i, j :: 0 <= i < j < data.Length ==> parse(data[i].date) >= parse(data[j].date)
    ensures orderBy == Asc ==> forall i, j :: 0 <= i < j < data.Length ==> parse(data[i].date) <= parse(data[j].date)
    ensures SameOrderPerKey(data[..], old(data[..]), DateKey(parse))
  {
    SortInPlace(data, DateKey(parse), orderBy);
    SortContract(old(data[..]), DateKey(parse), orderBy);
    sortedData := data;
  }

  /** `getAllPosts(options)` over the imported modules `mods`. */
  method GetAllPosts(mods: seq<PostModule<string>>, options: Options, parse: string -> int)
    returns (result: seq<Post<string>>)
    ensures result == Listing(mods, DateKey(parse), options)
  {
    var orderBy := options.orderBy.GetOr(Desc);
    var posts := new Post<string>[|mods|](i requires 0 <= i < |mods| => PostFromModule(mods[i]));
    assert posts[..] == Posts(mods);
    var sortedPosts := SortByDate(posts, orderBy, parse);
    result := SliceTo(sortedPosts[..], options.limit);
  }

  /** The blog index's `getAllPosts()` over the five modules: all five,
      newest parsed date first, exactly the imported posts. */
  lemma BlogIndexListsAllFive(mods: seq<PostModule<string>>, parse: string -> int)
    requires |mods| == 5
    ensures var r := Listing(mods, DateKey(parse), NoOptions);
      && |r| == 5
      && multiset(r) == multiset(Posts(mods))
      && forall i, j :: 0 <= i < j < 5 ==> parse(r[i].date) >= parse(r[j].date)
  {
    var r := Listing(mods, DateKey(parse), NoOptions);
    ListingDefaults(mods, DateKey(parse));
    forall i, j | 0 <= i < j < 5 ensures parse(r[i].date) >= parse(r[j].date) {
      assert DateKey(parse)(r[i]) >= DateKey(parse)(r[j]);
    }
  }
}

/** What app/utils/post.ts and app/utils/mdx.ts have in common, word for
    word: the post record built from an MDX module (`postFromModule`), the
    slug rule, the options of `getAllPosts` with their defaults, and the
    final `slice(0, limit)`.  The two files differ only in how a post's
    date becomes a number, so the date type `D` and the sort key are
    parameters here. */
module Catalog {
  import opened Base
  import opened StableSort

  // ---------------------------------------------------------------------
  // Slugs

  /** `filename.replace(/\.mdx?$/, '')`: one trailing `.md` or `.mdx` is
      removed; `$` without the `m` flag anchors at the very end. */
  function StripMdExtension(filename: string): (slug: string)
    ensures |slug| <= |filename| && slug == filename[..|slug|]
    ensures EndsWith(filename, ".mdx") ==> |slug| == |filename| - 4
    ensures EndsWith(filename, ".md") ==> |slug| == |filename| - 3
    ensures slug == filename <==> !EndsWith(filename, ".md") && !EndsWith(filename, ".mdx")
  {
    if EndsWith(filename, ".mdx") then
      assert filename[|filename| - 1] == ".mdx"[3] != ".md"[2];
      filename[..|filename| - 4]
    else if EndsWith(filename, ".md") then filename[..|filename| - 3]
    else filename
  }

  /** The file stem comes back: the slug of `stem.md` or `stem.mdx` is `stem`,
      and only one extension is removed. */
  lemma StemRoundTrip(stem: string)
    ensures StripMdExtension(stem + ".md") == stem
    ensures StripMdExtension(stem + ".mdx") == stem
  {
    var md, mdx := stem + ".md", stem + ".mdx";
    assert md[|md| - 3..] == ".md";
    assert mdx[|mdx| - 4..] == ".mdx";
    assert md[..|md| - 3] == stem;
    assert mdx[..|mdx| - 4] == stem;
  }

  // ---------------------------------------------------------------------
  // Post records

  /** `mod.attributes.meta`: the front-matter `meta` block.  A `slug` or
      `date` key in it is optional; `title`, `description` and `keywords`
      are what the pages and the feed read. */
  datatype Meta<D> = Meta(slug: Option<string>, date: Option<D>, title: string, description: string,
                          keywords: seq<string>)

  datatype Attributes<D> = Attributes(date: D, meta: Meta<D>)

  /** An imported MDX module, as the bundler hands it over. */
  datatype PostModule<D> = PostModule(filename: string, attributes: Attributes<D>)

  /** The object `postFromModule` returns. */
  datatype Post<D> = Post(slug: string, date: D, title: string, description: string, keywords: seq<string>)

  /** `{ slug, date, ...mod.attributes.meta }`: the spread comes last, so a
      `slug` or `date` in `meta` overrides the derived one. */
  function PostFromModule<D>(mod: PostModule<D>): (p: Post<D>)
    ensures mod.attributes.meta.slug.Some? ==> p.slug == mod.attributes.meta.slug.value
    ensures mod.attributes.meta.slug.None? ==> p.slug == StripMdExtension(mod.filename)
    ensures mod.attributes.meta.date.Some? ==> p.date == mod.attributes.meta.date.value
    ensures mod.attributes.meta.date.None? ==> p.date == mod.attributes.date
    ensures p.title == mod.attributes.meta.title && p.description == mod.attributes.meta.description
    ensures p.keywords == mod.attributes.meta.keywords
  {
    var meta := mod.attributes.meta;
    Post(meta.slug.GetOr(StripMdExtension(mod.filename)),
         meta.date.GetOr(mod.attributes.date),
         meta.title, meta.description, meta.keywords)
  }

  /** The `posts` array literal of `getAllPosts`, one record per module in
      import order. */
  function Posts<D>(mods: seq<PostModule<D>>): (posts: seq<Post<D>>)
    ensures |posts| == |mods|
    ensures forall i :: 0 <= i < |mods| ==> posts[i] == PostFromModule(mods[i])
  {
    seq(|mods|, i requires 0 <= i < |mods| => PostFromModule(mods[i]))
  }

  // ---------------------------------------------------------------------
  // Options and selection

  /** The argument of `getAllPosts`; `None` is an omitted property, which
      takes the default: `orderBy = 'desc'`, `limit = Infinity`. */
  datatype Options = Options(orderBy: Option<Order>, limit: Option<int>)

  /** `getAllPosts()`: the parameter itself defaults to `{}`. */
  const NoOptions := Options(None, None)

  function OrderOf(options: Options): Order {
    options.orderBy.GetOr(Desc)
  }

  /** `s.slice(0, limit)`.  An absent limit is `Infinity`, so nothing is
      cut; a negative limit counts from the end, so `slice(0, -k)` drops
      the last `k` elements. */
  function SliceTo<T>(s: seq<T>, limit: Option<int>): (r: seq<T>)
    ensures |r| <= |s| && r == s[..|r|]
    ensures limit.None? ==> r == s
    ensures limit.Some? && limit.value >= 0 ==> |r| == Min(limit.value, |s|)
    ensures limit.Some? && limit.value < 0 ==> |r| == Max(0, |s| + limit.value)
  {
    match limit
    case None => s
    case Some(n) => if n >= 0 then s[..Min(n, |s|)] else s[..Max(0, |s| + n)]
  }

  /** What `getAllPosts(options)` returns when `key` is how the file turns
      a post's date into a number. */
  function Listing<D>(mods: seq<PostModule<D>>, key: Post<D> -> int, options: Options): seq<Post<D>> {
    SliceTo(Sort(Posts(mods), key, OrderOf(options)), options.limit)
  }

  /** `getAllPosts()`: every post, newest first, none added or dropped,
      posts with the same date in import order. */
  lemma ListingDefaults<D>(mods: seq<PostModule<D>>, key: Post<D> -> int)
    ensures var r := Listing(mods, key, NoOptions);
      && r == Sort(Posts(mods), key, Desc)
      && |r| == |mods|
      && multiset(r) == multiset(Posts(mods))
      && SameOrderPerKey(r, Posts(mods), key)
      && forall i, j :: 0 <= i < j < |r| ==> key(r[i]) >= key(r[j])
  {
    SortContract(Posts(mods), key, Desc);
  }

  /** `orderBy: 'asc'`: oldest first. */
  lemma ListingAscending<D>(mods: seq<PostModule<D>>, key: Post<D> -> int, limit: Option<int>)
    ensures var r := Listing(mods, key, Options(Some(Asc), limit));
      forall i, j :: 0 <= i < j < |r| ==> key(r[i]) <= key(r[j])
  {
    SortContract(Posts(mods), key, Asc);
  }

  /** `limit: n` with `n >= 0`: the first `min(n, |mods|)` posts of the
      unlimited listing in the same order. */
  lemma ListingLimit<D>(mods: seq<PostModule<D>>, key: Post<D> -> int, orderBy: Option<Order>, n: int)
    requires n >= 0
    ensures var all := Listing(mods, key, Options(orderBy, None));
      var r := Listing(mods, key, Options(orderBy, Some(n)));
      |r| == Min(n, |mods|) && r == all[..|r|]
  {
    SortContract(Posts(mods), key, OrderOf(Options(orderBy, None)));
  }

  /** `limit: n` with `n < 0`, as JavaScript's `slice` has it: all but the
      last `-n` posts (none when `-n >= |mods|`). */
  lemma ListingNegativeLimit<D>(mods: seq<PostModule<D>>, key: Post<D> -> int, orderBy: Option<Order>, n: int)
    requires n < 0
    ensures var all := Listing(mods, key, Options(orderBy, None));
      var r := Listing(mods, key, Options(orderBy, Some(n)));
      |r| == Max(0, |mods| + n) && r == all[..|r|]
  {
    SortContract(Posts(mods), key, OrderOf(Options(orderBy, None)));
  }
}

/** app/utils/rss.ts: the Remix site's feeds.  `generateRssFeed` lists
    the posts with `getAllPosts()` of app/utils/post.ts, adds one feed item
    per post, and returns the three serialisations of that one feed.  The
    imported post modules, the current time and its year are parameters. */
module AppRss {
  import opened Base
  import opened Catalog
  import opened Feeds
  import RemixPosts
  import Seo

  /** The object passed to `feed.addItem` for `post`. */
  function ItemFor(post: Post<int>): Item {
    var url := PostUrl(post.slug);
    Item(post.title, url, url, post.description, "", [Author], [Author], post.date)
  }

  /** The items of the feed after the `forEach` over `posts`. */
  function FeedItems(posts: seq<Post<int>>): (items: seq<Item>)
    ensures |items| == |posts|
    ensures forall i :: 0 <= i < |posts| ==> items[i] == ItemFor(posts[i])
  {
    seq(|posts|, i requires 0 <= i < |posts| => ItemFor(posts[i]))
  }

  /** `generateRssFeed()`: the feed with the site's options and one item
      per post of `getAllPosts()`, in that order; `rss2()`, `atom1()` and
      `json1()` all serialise that same feed. */
  method GenerateRssFeed(mods: seq<PostModule<int>>, now: int, year: int) returns (out: FeedOutputs)
    ensures var items := FeedItems(Listing(mods, RemixPosts.DateOf, NoOptions));
      var options := SiteFeedOptions(now, year);
      && out.rssFeed == Rendition(Rss2, options, items)
      && out.atomFeed == Rendition(Atom1, options, items)
      && out.jsonFeed == Rendition(Json1, options, items)
  {
    var posts := RemixPosts.GetAllPosts(mods, NoOptions);
    var feed := new Feed(SiteFeedOptions(now, year));
    var i := 0;
    while i < |posts|
      invariant 0 <= i <= |posts|
      invariant feed.options == SiteFeedOptions(now, year)
      invariant |feed.items| == i
      invariant forall k :: 0 <= k < i ==> feed.items[k] == ItemFor(posts[k])
    {
      var post := posts[i];
      var url := SiteUrl + "/blog/" + post.slug;
      feed.AddItem(Item(post.title, url, url, post.description, "", [Author], [Author], post.date));
      i := i + 1;
    }
    assert feed.items == FeedItems(posts);
    out := FeedOutputs(feed.Render(Rss2), feed.Render(Atom1), feed.Render(Json1));
  }

  /** What a reader of the feed sees: one item per post module, newest
      first; each item's id and link the post's URL, its title and
      description the post's, its content empty, its author and contributor
      the one fixed author, and its date the post's. */
  lemma FeedIsNewestFirst(mods: seq<PostModule<int>>)
    ensures var posts := Listing(mods, RemixPosts.DateOf, NoOptions);
      var items := FeedItems(posts);
      && |items| == |mods|
      && (forall i :: 0 <= i < |items| ==>
            && items[i].id == SiteUrl + "/blog/" + posts[i].slug
            && items[i].link == items[i].id
            && items[i].title == posts[i].title
            && items[i].description == posts[i].description
            && items[i].content == ""
            && items[i].author == [Author] && items[i].contributor == [Author]
            && items[i].date == posts[i].date)
      && (forall i, j :: 0 <= i < j < |items| ==> items[i].date >= items[j].date)
  {
    var posts := Listing(mods, RemixPosts.DateOf, NoOptions);
    ListingDefaults(mods, RemixPosts.DateOf);
    var items := FeedItems(posts);
    forall i, j | 0 <= i < j < |items| ensures items[i].date >= items[j].date {
      assert items[i].date == RemixPosts.DateOf(posts[i]);
      assert items[j].date == RemixPosts.DateOf(posts[j]);
    }
  }

  /** Posts with distinct slugs get feed items with distinct ids. */
  lemma ItemIdsDistinct(posts: seq<Post<int>>, i: nat, j: nat)
    requires i < |posts| && j < |posts|
    requires posts[i].slug != posts[j].slug
    ensures ItemFor(posts[i]).id != ItemFor(posts[j]).id
  {
    if ItemFor(posts[i]).id == ItemFor(posts[j]).id {
      PostUrlInjective(posts[i].slug, posts[j].slug);
    }
  }

  /** A feed item links to the same URL that the post's own page announces
      as `og:url`.  app/root.tsx passes the page's path; Remix serves the
      module `app/routes/blog/<name>.mdx` at `/blog/` + the name without its
      extension.  That is the item's slug unless `meta.slug` overrides it,
      in which case the feed links elsewhere than the page. */
  lemma ItemLinkIsPageUrl(mod: PostModule<int>)
    requires mod.attributes.meta.slug.None?
    ensures var page := "/blog/" + StripMdExtension(mod.filename);
      ItemFor(PostFromModule(mod)).link == Seo.GetSEOMeta(Seo.SeoArgs(page, None, None, None)).ogUrl
  {
    var path := "/blog/" + StripMdExtension(mod.filename);
    assert path != "/" by {
      assert |path| >= 6;
    }
    assert SiteUrl + path == SiteUrl + "/blog/" + StripMdExtension(mod.filename);
  }
}

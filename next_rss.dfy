/** utils/rss.ts: the Next.js site's feeds.  The same feed as
    app/utils/rss.ts, but over the unsorted records of utils/posts.ts:
    title, description and date come from each record's front matter, and
    the item content is the front matter's `summary` when there is one.
    The files it writes under public/rss/ are the three outputs returned
    here; `new Date(frontmatter.date)` is the parameter `parseDate`. */
module NextRss {
  import opened Base
  import opened Feeds
  import opened NextPosts

  /** The object passed to `feed.addItem` for `post`. */
  function ItemFor(post: PostRecord, parseDate: string -> int): Item {
    var url := PostUrl(post.slug);
    Item(post.frontmatter.title, url, url, post.frontmatter.description,
         post.frontmatter.summary.GetOr(""), [Author], [Author], parseDate(post.frontmatter.date))
  }

  /** The items of the feed after the `forEach` over `posts`. */
  function FeedItems(posts: seq<PostRecord>, parseDate: string -> int): (items: seq<Item>)
    ensures |items| == |posts|
    ensures forall i :: 0 <= i < |posts| ==> items[i] == ItemFor(posts[i], parseDate)
  {
    seq(|posts|, i requires 0 <= i < |posts| => ItemFor(posts[i], parseDate))
  }

  /** `generateRssFeed()`: the feed with the site's options and one item
      per record of `getAllPosts()`, in key order; the three outputs
      serialise that same feed. */
  method GenerateRssFeed(keys: seq<string>, context: string -> string, matter: string -> Document,
                         parseDate: string -> int, now: int, year: int)
    returns (out: FeedOutputs)
    ensures var items := FeedItems(NextPosts.GetAllPosts(keys, context, matter), parseDate);
      var options := SiteFeedOptions(now, year);
      && out.rssFeed == Rendition(Rss2, options, items)
      && out.atomFeed == Rendition(Atom1, options, items)
      && out.jsonFeed == Rendition(Json1, options, items)
  {
    var posts := NextPosts.GetAllPosts(keys, context, matter);
    var feed := new Feed(SiteFeedOptions(now, year));
    var i := 0;
    while i < |posts|
      invariant 0 <= i <= |posts|
      invariant feed.options == SiteFeedOptions(now, year)
      invariant |feed.items| == i
      invariant forall k :: 0 <= k < i ==> feed.items[k] == ItemFor(posts[k], parseDate)
    {
      var post := posts[i];
      var url := SiteUrl + "/blog/" + post.slug;
      feed.AddItem(Item(post.frontmatter.title, url, url, post.frontmatter.description,
                        post.frontmatter.summary.GetOr(""), [Author], [Author],
                        parseDate(post.frontmatter.date)));
      i := i + 1;
    }
    assert feed.items == FeedItems(posts, parseDate);
    out := FeedOutputs(feed.Render(Rss2), feed.Render(Atom1), feed.Render(Json1));
  }

  /** What a reader of the feed sees: one item per key, in key order; ids
      and links from the key's slug, title, description and date from the
      front matter, content `summary ?? ''`, the fixed author. */
  lemma FeedFollowsKeys(keys: seq<string>, context: string -> string, matter: string -> Document,
                        parseDate: string -> int)
    ensures var items := FeedItems(NextPosts.GetAllPosts(keys, context, matter), parseDate);
      && |items| == |keys|
      && forall i :: 0 <= i < |items| ==>
           var fm := matter(context(keys[i])).data;
           && items[i].id == SiteUrl + "/blog/" + Slug(keys[i])
           && items[i].link == items[i].id
           && items[i].title == fm.title
           && items[i].description == fm.description
           && (fm.summary.Some? ==> items[i].content == fm.summary.value)
           && (fm.summary.None? ==> items[i].content == "")
           && items[i].author == [Author] && items[i].contributor == [Author]
           && items[i].date == parseDate(fm.date)
  {
  }
}

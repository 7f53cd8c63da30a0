/** The part of the `feed` library that app/utils/rss.ts and utils/rss.ts
    drive, and the feed configuration both files write out identically.
    A `Feed` object keeps the options it was created with and a list of
    items that `addItem` appends to; `rss2()`, `atom1()` and `json1()`
    serialise that one list.  The serialisers are the library's, so a
    `Rendition` records what each is given rather than the text it makes. */
module Feeds {
  import opened Base

  /** The `author` object of both rss files. */
  datatype Person = Person(name: string, email: string, link: string)

  const Author := Person("Olivia Coumans", "olivialngc1@gmail.com", "https://twitter.com/liv_codes")

  datatype FeedLinks = FeedLinks(rss2: string, json: string, atom: string)

  /** The object passed to `new Feed(...)`.  `updated` is the current time
      in milliseconds. */
  datatype FeedOptions = FeedOptions(
    title: string,
    description: string,
    id: string,
    link: string,
    image: string,
    favicon: string,
    copyright: string,
    updated: int,
    generator: string,
    feedLinks: FeedLinks,
    author: Person)

  /** The object passed to `feed.addItem(...)`; `date` in milliseconds. */
  datatype Item = Item(
    title: string,
    id: string,
    link: string,
    description: string,
    content: string,
    author: seq<Person>,
    contributor: seq<Person>,
    date: int)

  datatype Format = Rss2 | Atom1 | Json1

  /** What one serialiser reads from the feed. */
  datatype Rendition = Rendition(format: Format, options: FeedOptions, items: seq<Item>)

  /** The three serialisations `generateRssFeed` produces (returned by
      app/utils/rss.ts, written to public/rss/ by utils/rss.ts). */
  datatype FeedOutputs = FeedOutputs(rssFeed: Rendition, atomFeed: Rendition, jsonFeed: Rendition)

  /** `new Feed({...})` of both rss files.  Both values come from one
      `new Date()`: `now` is its time in milliseconds and `year` is
      `getFullYear()` of it, the year of `now` in the local time zone. */
  function SiteFeedOptions(now: int, year: int): (o: FeedOptions)
    ensures o.id == SiteUrl && o.link == SiteUrl
    ensures o.feedLinks == FeedLinks(SiteUrl + "/rss/feed.xml", SiteUrl + "/rss/feed.json", SiteUrl + "/rss/atom.xml")
    ensures o.copyright == "All rights reserved " + Decimal(year) + ", Olivia Coumans"
    ensures o.updated == now && o.author == Author
  {
    FeedOptions(
      "Olivia's dev blog",
      "Olivia Coumans' site",
      SiteUrl,
      SiteUrl,
      SiteUrl + "/blog-img.png",
      SiteUrl + "/favicon.ico",
      "All rights reserved " + Decimal(year) + ", Olivia Coumans",
      now,
      "Feed for Olivia's dev blog",
      FeedLinks(SiteUrl + "/rss/feed.xml", SiteUrl + "/rss/feed.json", SiteUrl + "/rss/atom.xml"),
      Author)
  }

  /** `${siteURL}/blog/${post.slug}`: a post's id and link in the feed. */
  function PostUrl(slug: string): (url: string)
    ensures EndsWith(url, slug) && url[..|url| - |slug|] == SiteUrl + "/blog/"
  {
    SiteUrl + "/blog/" + slug
  }

  /** Distinct slugs give distinct item ids. */
  lemma PostUrlInjective(s: string, t: string)
    requires PostUrl(s) == PostUrl(t)
    ensures s == t
  {
    var prefix := SiteUrl + "/blog/";
    assert PostUrl(s) == prefix + s && PostUrl(t) == prefix + t;
    assert s == (prefix + s)[|prefix|..];
    assert t == (prefix + t)[|prefix|..];
  }

  class Feed {
    const options: FeedOptions
    var items: seq<Item>

    constructor (options: FeedOptions)
      ensures this.options == options && items == []
    {
      this.options := options;
      items := [];
    }

    /** `feed.addItem(item)`: appends. */
    method AddItem(item: Item)
      modifies this
      ensures items == old(items) + [item]
    {
      items := items + [item];
    }

    /** `feed.rss2()`, `feed.atom1()`, `feed.json1()`: each reads the same
        options and the same item list. */
    function Render(format: Format): Rendition
      reads this
    {
      Rendition(format, options, items)
    }
  }
}

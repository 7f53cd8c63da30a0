# Post catalogue of the devblog site

This project models the part of the site that does more than render: the
post catalogue pipeline. Content files become posts with URL slugs. Posts
are sorted by date and cut to a limit, and they become items of the
site's RSS, Atom and JSON feeds. Every page also gets a canonical URL and
its SEO meta record.

The project covers both versions of the site:

- The Remix version has two catalogues. `app/utils/post.ts` sorts by a
  `Date` attribute and `app/utils/mdx.ts` by a date string. It also has
  the feed of `app/utils/rss.ts` and the meta of `app/utils/seo.ts`.
- The Next.js version builds its catalogue in `utils/posts.ts` from
  webpack's `require.context`, and writes feeds in `utils/rss.ts`.

Modules:

- `Base`: an `Option` type for JavaScript's `undefined`, `endsWith`, and
  the decimal rendering a template literal uses.
- `StableSort`: `Array.prototype.sort` with the `sortByDate` comparator.
  The sort is stable since ECMAScript 2019. `Sort` is the stable order
  written as an insertion sort, and `SortUnique` shows that no other
  sequence is both ordered and keeps equal keys in input order. So `Sort`
  is what any stable sort returns. `SortInPlace` computes it on an array.
- `Catalog`: what `post.ts` and `mdx.ts` share word for word.
  - the slug rule `/\.mdx?$/`;
  - `postFromModule`, where the spread of `meta` overrides `slug` and
    `date`;
  - the options with their defaults;
  - `slice(0, limit)`, with JavaScript's meaning for negative limits;
  - `Listing`, the value `getAllPosts` returns.
- `RemixPosts` (`post.ts`) and `MdxPosts` (`mdx.ts`): `sortByDate` as an
  in-place method over an array that returns the same array, and
  `getAllPosts` proved equal to `Listing`.
- `NextPosts` (`utils/posts.ts`): the slug rule
  `key.replace(/^.*[\\\/]/, '').slice(0, -3)`. The regular expression's
  `.` stops at line terminators, and the model keeps that. It also holds
  the record mapping over the context keys.
- `Seo` (`app/utils/seo.ts`): the canonical URL and the meta record.
- `Feeds`: the feed configuration shared by both `rss.ts` files, and the
  `feed` library's `Feed` object as a class. The class has an item list
  that `addItem` appends to.
- `AppRss` and `NextRss`: the two `generateRssFeed` loops. Each is a
  method that fills a `Feed` item by item, proved equal to a mapping of
  the posts. Lemmas then state what a reader of the feed sees.

Foreign code is passed in as parameters:

- MDX module imports become the `mods` sequence.
- `require.context` becomes `keys` and `context`.
- gray-matter becomes `matter`.
- `Date.parse` and `new Date(string)` become `parse` or `parseDate`.
- `new Date()` and `getFullYear()` become `now` and `year`.

The catalogue length is a parameter, not the five files the site
imports. The lemmas about the home page and the blog index fix it at five.

## Model

| member | source | states |
|---|---|---|
| StableSort.CompareMeaning | app/utils/post.ts:21-23 | The comparator is the difference of ranks. A negative result puts the later date first for `'desc'` and the earlier date first for `'asc'`. |
| StableSort.Insert | app/utils/post.ts:17-24 | One step of the stable sort: `x` goes after every element the comparator does not put strictly after it. Its properties are those of the `Insert…` lemmas used by `SortPermutes`, `SortIsSorted` and `SortIsStable`. |
| StableSort.Sort | app/utils/post.ts:17-24 | The array `posts.sort(...)` leaves behind. Its meaning is given by `SortContract` and `SortUnique`. |
| StableSort.SortPermutes | app/utils/post.ts:17-24 | The sorted sequence has exactly the input's elements, with the same multiplicities. |
| StableSort.SortIsSorted | app/utils/post.ts:17-24 | No pair of elements of the result is out of order under the comparator. |
| StableSort.SortIsStable | app/utils/post.ts:17-24 | For every key, the elements with that key appear in the result in their input order. |
| StableSort.SortContract | app/utils/post.ts:16-24 | The combination callers use: same length, a permutation, stable per key, non-increasing keys for `Desc` and non-decreasing keys for `Asc`. |
| StableSort.SortUnique | app/utils/post.ts:17-24 | Any ordered sequence that keeps each key's elements in input order equals `Sort`. So `Sort` is the result of ECMAScript's stable sort, whatever algorithm the engine uses. |
| StableSort.InsertInPlace | app/utils/post.ts:17-24 | Moving `a[i]` left past the elements the comparator puts after it leaves `a[..i+1]` equal to `Insert` of the old prefix and element. The rest of the array is unchanged. |
| StableSort.SortInPlace | app/utils/post.ts:17-24 | Sorting the array in place leaves it holding `Sort` of its old contents. |
| Catalog.StripMdExtension | app/utils/post.ts:10 | The slug is a prefix of the file name. A `.mdx` name loses 4 characters and a `.md` name loses 3. The name is unchanged exactly when it ends in neither. |
| Catalog.StemRoundTrip | app/utils/mdx.ts:9 | The slug of `stem.md` and of `stem.mdx` is `stem`. Only one extension is removed. |
| Catalog.PostFromModule | app/utils/post.ts:8-14 | `meta.slug` and `meta.date`, when present, override the derived slug and the attribute date. Otherwise those derived values are used. Title, description and keywords come from `meta`. |
| Catalog.Posts | app/utils/post.ts:36-42 | One record per module, in import order. |
| Catalog.SliceTo | app/utils/post.ts:46 | The result is a prefix. No limit keeps everything. A limit `n >= 0` keeps `min(n, length)` elements. A negative `n` keeps `max(0, length + n)` elements. |
| Catalog.Listing | app/utils/post.ts:29-46 | The value `getAllPosts(options)` returns: the records, sorted by the chosen order, sliced to the limit. The `Listing…` lemmas state what it holds. |
| Catalog.ListingDefaults | app/utils/post.ts:29-46 | `getAllPosts()` returns every post, newest first, as a permutation of the records, with equal dates in import order. |
| Catalog.ListingAscending | app/utils/mdx.ts:20-22 | `orderBy: 'asc'` gives non-decreasing dates, with any limit. |
| Catalog.ListingLimit | app/utils/post.ts:46 | For `n >= 0`, `limit: n` returns the first `min(n, count)` posts of the unlimited listing in the same order. |
| Catalog.ListingNegativeLimit | app/utils/mdx.ts:45 | For `n < 0`, `limit: n` returns the unlimited listing without its last `-n` posts. |
| RemixPosts.SortByDate | app/utils/post.ts:16-27 | Sorts the given array in place and returns that same array. The new contents are the stable sort of the old, a permutation, dated non-increasing for `'desc'` and non-decreasing for `'asc'`, with ties in input order. |
| RemixPosts.GetAllPosts | app/utils/post.ts:29-47 | Builds the records, sorts them and slices them. The result equals `Listing`, so the lemmas about `Listing` apply to it. |
| RemixPosts.HomePageShowsThreeNewest | app/routes/index.tsx:13 | With five posts, the home page's `limit: 3` returns the first three of the full listing, none older than the two left out. |
| RemixPosts.ThreePostScenario | app/utils/post.ts:16-27 | Posts dated 2021-01-01, 2022-01-01 and 2020-01-01 sort newest first as b, a, c, and `slice(0, 2)` of that is b, a. |
| MdxPosts.SortByDate | app/utils/mdx.ts:15-26 | As for `post.ts`, with the key `Date.parse(post.date)`. |
| MdxPosts.GetAllPosts | app/utils/mdx.ts:28-46 | The result equals `Listing` with the parsed-date key. |
| MdxPosts.BlogIndexListsAllFive | app/routes/blog/index.tsx:6 | The blog index's `getAllPosts()` over five modules returns all five imported posts, newest parsed date first. |
| NextPosts.LineEnd | utils/posts.ts:9 | The first line terminator of the key, or its length. No terminator comes before it. |
| NextPosts.LastSeparator | utils/posts.ts:9 | The position of the last `/` or `\` before the given bound, or -1. No separator follows it within the bound. |
| NextPosts.StripDirectory | utils/posts.ts:9 | `key.replace(/^.*[\\\/]/, '')`: everything through the last separator of the first line is removed. The slug lemmas below state what remains. |
| NextPosts.DropLastThree | utils/posts.ts:9 | `slice(0, -3)` is the prefix of length `max(0, length - 3)`. |
| NextPosts.Slug | utils/posts.ts:9 | The slug rule, `StripDirectory` followed by `DropLastThree`. Its meaning is stated by `SlugHasNoSeparator`, `SlugIsLastSegmentStem`, `SlugOfBareFileName` and `LineBreakKeepsDirectory`. |
| NextPosts.GetAllPosts | utils/posts.ts:3-22 | One record per context key, in key order, with no sorting. The i-th record's slug comes from the i-th key alone. Front matter and body come from gray-matter's split of that key's file. |
| NextPosts.SlugHasNoSeparator | utils/posts.ts:9 | A key without line breaks gives a slug with no `/` or `\`. |
| NextPosts.SlugIsLastSegmentStem | utils/posts.ts:9 | For a key ending in `.md` without line breaks, `slug + ".md"` is the key's last path segment. It is a suffix that starts the key or follows a separator. |
| NextPosts.SlugOfBareFileName | utils/posts.ts:9 | A `.md` key with no separator on its first line loses exactly its last three characters. |
| NextPosts.LineBreakKeepsDirectory | utils/posts.ts:9 | `.` does not cross a line break, so the slug of `a` + newline + `/b.md` keeps the `/`. |
| Seo.CanonicalUrl | app/utils/seo.ts:12-15 | `/` gives the bare site URL with no trailing slash. Any other path gives the site URL followed by the path. |
| Seo.CanonicalUrlInjective | app/utils/seo.ts:12-15 | Different paths give different URLs. The one exception is `/` and the empty path. |
| Seo.GetSEOMeta | app/utils/seo.ts:1-32 | `og:url` is the canonical URL. The title fills `og:title`, `twitter:title` and `twitter:alt`. The description fills all three description fields. The blog image fills all three image fields. Omitted arguments take their defaults. |
| Seo.RootPageMeta | app/root.tsx:23 | The root layout passes only the path, so every page carries the default title, description and keywords. The home page's URL is the bare site. |
| Feeds.SiteFeedOptions | utils/rss.ts:17-33 | The feed's id and link are the site URL. The three feed links are `/rss/feed.xml`, `/rss/feed.json` and `/rss/atom.xml` under it. The copyright carries the current year, `updated` the current time, and the author is the fixed one. |
| Feeds.PostUrl | app/utils/rss.ts:35 | The URL is `https://oliviac.dev/blog/` followed by the slug, the slug being its suffix after that prefix. |
| Feeds.PostUrlInjective | app/utils/rss.ts:35 | Different slugs give different post URLs. |
| Feeds.Feed.constructor | app/utils/rss.ts:16-32 | A new feed keeps its options and has no items. |
| Feeds.Feed.AddItem | app/utils/rss.ts:37-46 | `addItem` appends one item and changes nothing else. |
| Feeds.Feed.Render | app/utils/rss.ts:49-53 | `rss2()`, `atom1()` and `json1()` each read the feed's options and its one item list. |
| AppRss.ItemFor | app/utils/rss.ts:36-46 | The object passed to `addItem` for one post. Its fields are stated by `FeedIsNewestFirst`. |
| AppRss.FeedItems | app/utils/rss.ts:34-47 | One item per post, the i-th made from the i-th post. |
| AppRss.GenerateRssFeed | app/utils/rss.ts:5-54 | The rss, atom and json outputs all render one feed. It has the site's options and the items of `getAllPosts()` in order. |
| AppRss.FeedIsNewestFirst | app/utils/rss.ts:6-47 | One item per post module. Each item's id and link are `https://oliviac.dev/blog/` followed by the slug. Title and description are the post's, content is empty, and author and contributor are the fixed author. Dates are non-increasing. |
| AppRss.ItemIdsDistinct | app/utils/rss.ts:35-40 | Posts with different slugs get items with different ids. |
| AppRss.ItemLinkIsPageUrl | app/root.tsx:23 | For a module without a `meta.slug` override, the feed link of its post equals the `og:url` of the page Remix serves it at, `/blog/` plus the file name without its extension. |
| NextRss.ItemFor | utils/rss.ts:37-47 | The object passed to `addItem` for one record. Its fields are stated by `FeedFollowsKeys`. |
| NextRss.FeedItems | utils/rss.ts:35-48 | One item per record, the i-th made from the i-th record. |
| NextRss.GenerateRssFeed | utils/rss.ts:6-54 | The three files' contents render one feed. It has the site's options and the items of `getAllPosts()` in key order. |
| NextRss.FeedFollowsKeys | utils/rss.ts:35-48 | One item per key, in key order. Id and link come from the key's slug. Title, description and date come from the front matter, content is `summary` when present and otherwise empty, and the author is fixed. |

## Left out

- Limits follow JavaScript's `slice(0, n)`: a negative `n` drops the last
  `-n` posts rather than giving an empty list (`Catalog.SliceTo`,
  `Catalog.ListingNegativeLimit`), and a limit of 0 gives the empty list.
- A limit of `-Infinity`, `NaN` or a fraction is not modelled. The limit is
  an integer, or absent for the default `Infinity`.
- `Date.parse` can return `NaN`, and so can `getTime()` of an invalid
  `Date`. A `NaN` comparator result breaks the sort's consistency
  requirement. Dates here are integer timestamps. `Date` values are
  doubles, but comparing two of them by the sign of their difference is
  the same as comparing the exact integers.
- When it sorts an array, the model fixes the order of the result, not the
  sequence of comparisons or moves an engine makes. `SortUnique` is what
  ties the insertion sort to any stable sort.
- The feed serialisers (`rss2()`, `atom1()`, `json1()`) belong to the
  `feed` library. A `Rendition` records the format, options and items each
  one reads, not the text it produces.
- File output in `utils/rss.ts` (`mkdirSync`, `writeFileSync`) is I/O. The
  three renditions are what would be written.
- `new Date(post.date)` in the feed items copies the timestamp; the model
  uses the same integer.
- Strings are sequences of Unicode scalar values, while JavaScript counts
  UTF-16 code units. `StripMdExtension` agrees with JavaScript on every
  name, because `.md` and `.mdx` are ASCII. `NextPosts.DropLastThree`
  (`slice(0, -3)`) differs only when a character outside the Basic
  Multilingual Plane is among the last three: JavaScript then cuts inside
  its surrogate pair. The keys `require.context('../posts', true, /\.md$/)`
  admits end in `.md`, so for them the two agree.
- Front matter is taken as well-formed: `title`, `description` and `date`
  are present strings, and `summary` is optional. In JavaScript a missing
  field would be `undefined`.
- The `mods` passed to `getAllPosts` stand for the five imported MDX
  modules, and `meta.title`, `meta.description` and `meta.keywords` are
  taken as present.
- Catalog.PostFromModule: the spread `...mod.attributes.meta` copies every
  key of `meta` into the post. The model carries `slug`, `date`, `title`,
  `description` and `keywords`, the keys the site reads, and no others.
- Feeds.SiteFeedOptions: `now` and `year` are taken from one `new Date()`
  in the source; here they are two parameters, and `year` stands for the
  local-time year of `now`. The model does not compute one from the other.
- Date and time formatting (luxon, `Intl.DateTimeFormat`), React pages and
  components, theme and menu state, analytics, configuration and build
  files are rendering or environment code, not part of the catalogue.
- The slug loop that `pages/index.tsx` repeats is the one of
  `utils/posts.ts`, modelled once. `pages/blog/index.tsx`'s bare
  `slice(0, 3)` is `Catalog.SliceTo`.

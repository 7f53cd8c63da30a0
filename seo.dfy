/** app/utils/seo.ts: the meta tags of every page of the Remix site
    (app/root.tsx passes the current location's path). */
module Seo {
  import opened Base

  const DefaultTitle := "Olivia Coumans"
  const DefaultDescription := "Front-end developer passionate about building robust UIs."
  const BlogImage := "/img/blog-img.png"

  /** The argument of `getSEOMeta`; `None` is an omitted property. */
  datatype SeoArgs = SeoArgs(
    currentPath: string,
    title: Option<string>,
    description: Option<string>,
    keywords: Option<string>)

  /** The object `getSEOMeta` returns, one field per meta name. */
  datatype SeoMeta = SeoMeta(
    description: string,
    keywords: string,
    image: string,
    ogUrl: string,
    ogTitle: string,
    ogDescription: string,
    ogImage: string,
    twitterCard: string,
    twitterCreator: string,
    twitterTitle: string,
    twitterDescription: string,
    twitterImage: string,
    twitterAlt: string)

  /** `url`: the site itself for `/` (no trailing slash), otherwise the site
      followed by the path. */
  function CanonicalUrl(currentPath: string): (url: string)
    ensures currentPath == "/" ==> url == SiteUrl
    ensures currentPath != "/" ==> url == SiteUrl + currentPath
  {
    if currentPath == "/" then SiteUrl else SiteUrl + currentPath
  }

  /** Distinct paths get distinct URLs, except that `/` and the empty path
      both give the bare site URL. */
  lemma CanonicalUrlInjective(p: string, q: string)
    requires CanonicalUrl(p) == CanonicalUrl(q)
    ensures p == q || (p == "/" && q == "") || (p == "" && q == "/")
  {
    if p != "/" && q != "/" {
      assert p == (SiteUrl + p)[|SiteUrl|..];
      assert q == (SiteUrl + q)[|SiteUrl|..];
    } else if p == "/" && q != "/" {
      assert |SiteUrl + q| == |SiteUrl|;
    } else if p != "/" && q == "/" {
      assert |SiteUrl + p| == |SiteUrl|;
    }
  }

  /** `getSEOMeta(args)`: the canonical URL goes to `og:url`; the title to
      every title-like field, the description to every description field,
      the one blog image to every image field. */
  function GetSEOMeta(args: SeoArgs): (m: SeoMeta)
    ensures m.ogUrl == CanonicalUrl(args.currentPath)
    ensures var title := args.title.GetOr(DefaultTitle);
      m.ogTitle == title && m.twitterTitle == title && m.twitterAlt == title
    ensures var description := args.description.GetOr(DefaultDescription);
      m.description == description && m.ogDescription == description && m.twitterDescription == description
    ensures m.keywords == args.keywords.GetOr("")
    ensures m.image == BlogImage && m.ogImage == BlogImage && m.twitterImage == BlogImage
    ensures m.twitterCard == "summary" && m.twitterCreator == "@liv_codes"
  {
    var title := args.title.GetOr(DefaultTitle);
    var description := args.description.GetOr(DefaultDescription);
    var url := CanonicalUrl(args.currentPath);
    SeoMeta(
      description,
      args.keywords.GetOr(""),
      BlogImage,
      url,
      title,
      description,
      BlogImage,
      "summary",
      "@liv_codes",
      title,
      description,
      BlogImage,
      title)
  }

  /** What app/root.tsx gets for a page: only the path is passed, so every
      page carries the default title and description, and the home page's
      URL is the bare site. */
  lemma RootPageMeta(path: string)
    ensures var m := GetSEOMeta(SeoArgs(path, None, None, None));
      && m.ogTitle == "Olivia Coumans" && m.twitterAlt == "Olivia Coumans"
      && m.description == DefaultDescription && m.keywords == ""
      && (path == "/" ==> m.ogUrl == "https://oliviac.dev")
  {
  }
}

/** utils/posts.ts: the post catalogue of the Next.js version of the site.
    Webpack's `require.context('../posts', true, /\.md$/)` supplies the keys
    (paths such as `./2021/intro.md`) and, through `context`, each file's
    text; gray-matter splits a text into front matter and body.  Both are
    foreign code, so `context` and `matter` are parameters here. */
module NextPosts {
  import opened Base

  /** `document.data`: the fields the site reads (types/Post.ts, and the
      optional `summary` that utils/rss.ts uses). */
  datatype Frontmatter = Frontmatter(
    title: string,
    date: string,
    description: string,
    summary: Option<string>,
    tags: seq<string>,
    keywords: seq<string>,
    image: string)

  /** What `matter(text)` returns. */
  datatype Document = Document(data: Frontmatter, content: string)

  /** One element of the array `getAllPosts` returns. */
  datatype PostRecord = PostRecord(frontmatter: Frontmatter, markdownBody: string, slug: string)

  /** The characters the regular-expression `.` does not match. */
  predicate IsLineTerminator(c: char) {
    c == '\n' || c == '\r' || c == '\U{2028}' || c == '\U{2029}'
  }

  /** `[\\\/]` */
  predicate IsSeparator(c: char) {
    c == '/' || c == '\\'
  }

  /** Where the first line of `s` ends: the first line terminator, or `|s|`. */
  function LineEnd(s: string): (n: nat)
    ensures n <= |s|
    ensures forall i :: 0 <= i < n ==> !IsLineTerminator(s[i])
    ensures n < |s| ==> IsLineTerminator(s[n])
  {
    LineEndFrom(s, 0)
  }

  /** The first line terminator at or after `i`, or `|s|`. */
  function LineEndFrom(s: string, i: nat): (n: nat)
    requires i <= |s|
    ensures i <= n <= |s|
    ensures forall k :: i <= k < n ==> !IsLineTerminator(s[k])
    ensures n < |s| ==> IsLineTerminator(s[n])
    decreases |s| - i
  {
    if i == |s| || IsLineTerminator(s[i]) then i else LineEndFrom(s, i + 1)
  }

  /** The last separator in `s[..n]`, or -1 when there is none. */
  function LastSeparator(s: string, n: nat): (p: int)
    requires n <= |s|
    ensures -1 <= p < n
    ensures p >= 0 ==> IsSeparator(s[p])
    ensures forall i :: p < i < n ==> !IsSeparator(s[i])
  {
    if n == 0 then -1
    else if IsSeparator(s[n - 1]) then n - 1
    else LastSeparator(s, n - 1)
  }

  /** `key.replace(/^.*[\\\/]/, '')`.  The greedy `.*` reaches the last
      separator of the first line (it cannot cross a line terminator), and
      everything up to and including that separator is removed; a first
      line without a separator leaves `key` unchanged. */
  function StripDirectory(key: string): string {
    key[LastSeparator(key, LineEnd(key)) + 1..]
  }

  /** `s.slice(0, -3)`: all but the last three characters. */
  function DropLastThree(s: string): (r: string)
    ensures |r| == Max(0, |s| - 3) && r == s[..|r|]
  {
    s[..Max(0, |s| - 3)]
  }

  /** `key.replace(/^.*[\\\/]/, '').slice(0, -3)` */
  function Slug(key: string): string {
    DropLastThree(StripDirectory(key))
  }

  /** `getAllPosts()`: one record per key, in key order, no sorting; the
      i-th slug is computed from the i-th key alone. */
  function GetAllPosts(keys: seq<string>, context: string -> string, matter: string -> Document)
    : (posts: seq<PostRecord>)
    ensures |posts| == |keys|
    ensures forall i :: 0 <= i < |keys| ==>
      && posts[i].slug == Slug(keys[i])
      && posts[i].frontmatter == matter(context(keys[i])).data
      && posts[i].markdownBody == matter(context(keys[i])).content
  {
    seq(|keys|, i requires 0 <= i < |keys| =>
      var document := matter(context(keys[i]));
      PostRecord(document.data, document.content, Slug(keys[i])))
  }

  /** A key without line breaks gives a slug without separators. */
  lemma SlugHasNoSeparator(key: string)
    requires forall i :: 0 <= i < |key| ==> !IsLineTerminator(key[i])
    ensures forall i :: 0 <= i < |Slug(key)| ==> !IsSeparator(Slug(key)[i])
  {
    var p := LastSeparator(key, LineEnd(key));
    var rest := StripDirectory(key);
    forall i | 0 <= i < |Slug(key)| ensures !IsSeparator(Slug(key)[i]) {
      assert Slug(key)[i] == rest[i] == key[p + 1 + i];
    }
  }

  /** For a key ending in `.md` (the only keys `require.context` admits)
      without line breaks, the slug plus `.md` is the key's last path
      segment: a suffix of the key that starts the key or follows a
      separator. */
  lemma SlugIsLastSegmentStem(key: string)
    requires forall i :: 0 <= i < |key| ==> !IsLineTerminator(key[i])
    requires EndsWith(key, ".md")
    ensures var slug := Slug(key);
      && EndsWith(key, slug + ".md")
      && (|slug| + 3 == |key| || IsSeparator(key[|key| - |slug| - 4]))
  {
    SingleLineEnd(key);
    OneLineSlug(key);
  }

  lemma OneLineSlug(key: string)
    requires LineEnd(key) == |key|
    requires EndsWith(key, ".md")
    ensures var slug := Slug(key);
      && EndsWith(key, slug + ".md")
      && (|slug| + 3 == |key| || IsSeparator(key[|key| - |slug| - 4]))
  {
    MdHasNoSeparator(key);
    var p := LastSeparator(key, |key|);
    assert p < |key| - 3;
    SlugAfter(key, p);
    LastSegment(key, p);
  }

  /** The slug is what lies between the last separator of the first line
      and the three final characters. */
  lemma SlugAfter(key: string, p: int)
    requires p == LastSeparator(key, LineEnd(key))
    requires p < |key| - 3
    ensures Slug(key) == key[p + 1..|key| - 3]
  {
    assert StripDirectory(key) == key[p + 1..];
  }

  /** A key without line breaks is one line. */
  lemma SingleLineEnd(key: string)
    requires forall i :: 0 <= i < |key| ==> !IsLineTerminator(key[i])
    ensures LineEnd(key) == |key|
  {
  }

  /** The `.md` at the end of a key holds no separator. */
  lemma MdHasNoSeparator(key: string)
    requires EndsWith(key, ".md")
    ensures forall i :: |key| - 3 <= i < |key| ==> !IsSeparator(key[i])
  {
    forall i | |key| - 3 <= i < |key| ensures !IsSeparator(key[i]) {
      assert key[i] == ".md"[i - (|key| - 3)];
    }
  }

  /** What follows the separator at `p` (or the whole key, for -1), less
      the final `.md`, plus `.md` again, is the end of the key. */
  lemma LastSegment(key: string, p: int)
    requires EndsWith(key, ".md")
    requires -1 <= p < |key| - 3
    requires p >= 0 ==> IsSeparator(key[p])
    ensures var slug := key[p + 1..|key| - 3];
      && EndsWith(key, slug + ".md")
      && (|slug| + 3 == |key| || IsSeparator(key[|key| - |slug| - 4]))
  {
    var slug := key[p + 1..|key| - 3];
    assert |key| - |slug| - 4 == p;
    assert key[|key| - 3..] == ".md";
    assert key[p + 1..] == slug + key[|key| - 3..];
  }

  /** A key with no separator (before any line break) and ending in `.md`
      loses exactly its last three characters. */
  lemma SlugOfBareFileName(key: string)
    requires forall i :: 0 <= i < LineEnd(key) ==> !IsSeparator(key[i])
    requires EndsWith(key, ".md")
    ensures Slug(key) == key[..|key| - 3]
  {
    var p := LastSeparator(key, LineEnd(key));
    assert p == -1;
    assert StripDirectory(key) == key[0..];
  }

  /** Line breaks stop the directory stripping: in `a` + newline + `/b.md`
      the first line holds no separator, so the slug keeps the `/`. */
  lemma LineBreakKeepsDirectory()
    ensures Slug("a\n/b.md") == "a\n/b"
  {
    var key := "a\n/b.md";
    assert LineEndFrom(key, 1) == 1;
    assert key[4..] == ".md";
    SlugOfBareFileName(key);
    assert key[..4] == "a\n/b";
  }
}

/** Small shared vocabulary: an optional value (JavaScript's `undefined`),
    string suffixes, and integer bounds used by `Array.prototype.slice`. */
module Base {

  /** `None` stands for a JavaScript property that is `undefined` (or, for
      `??`, `null`). */
  datatype Option<+T> = None | Some(value: T) {
    /** The value, or `default` when absent: JavaScript's `x ?? default`
        and a destructuring default `{ x = default }`. */
    function GetOr(default: T): T {
      match this
      case Some(v) => v
      case None => default
    }
  }

  /** The site's origin, written out in app/utils/seo.ts, app/utils/rss.ts
      and utils/rss.ts alike. */
  const SiteUrl := "https://oliviac.dev"

  /** JavaScript's `s.endsWith(suffix)`. */
  predicate EndsWith(s: string, suffix: string) {
    |suffix| <= |s| && s[|s| - |suffix|..] == suffix
  }

  function Min(a: int, b: int): int { if a <= b then a else b }

  function Max(a: int, b: int): int { if a >= b then a else b }

  /** Decimal rendering of an integer, as a template literal `${n}` prints it. */
  function Decimal(n: int): string
    decreases if n < 0 then 1 - n else n
  {
    if n < 0 then "-" + Decimal(-n)
    else if n < 10 then [Digit(n)]
    else Decimal(n / 10) + [Digit(n % 10)]
  }

  function Digit(d: int): char
    requires 0 <= d < 10
  {
    "0123456789"[d]
  }
}

/**
 * The two JavaScript value tests the components and the middleware rely on,
 * for values that are a string, `null` or `undefined` (`None` is either of the
 * last two).
 */
module JsValues {
  import opened Wrappers

  /** `if (v)`: a string is falsy exactly when it is absent or empty. */
  predicate Truthy(v: Option<string>) {
    v.Some? && v.value != ""
  }

  /** `v ?? fallback`: only an absent value is replaced; an empty string is kept. */
  function Nullish(v: Option<string>, fallback: string): (r: string)
    ensures v.Some? ==> r == v.value
    ensures v.None? ==> r == fallback
  {
    v.GetOr(fallback)
  }
}

/** Nullable values and the JavaScript `||` fallback used throughout the app.

    A field typed `T | null` (or an optional `T?`) is an `Option<T>`.  The
    expression `v || d` picks `d` whenever `v` is falsy: for a string that is
    null or "", for a number that is null or 0 (NaN is not modelled, since
    numbers here are exact reals). */
module Optional {

  datatype Option<+T> = None | Some(value: T) {

    /** The `??` operator: the value if present, otherwise the default. */
    function GetOr(default: T): T {
      match this
      case Some(v) => v
      case None => default
    }
  }

  /** True when a nullable string is truthy in JavaScript. */
  predicate TruthyString(s: Option<string>) {
    s.Some? && s.value != ""
  }

  /** `s || d` for a nullable string. */
  function StringOr(s: Option<string>, d: string): (r: string)
    ensures TruthyString(s) ==> r == s.value
    ensures !TruthyString(s) ==> r == d
  {
    if TruthyString(s) then s.value else d
  }

  /** True when a nullable number is truthy in JavaScript (NaN aside). */
  predicate TruthyNumber(n: Option<real>) {
    n.Some? && n.value != 0.0
  }

  /** `n || d` for a nullable number. Every outcome equals `n ?? d` except
      that a stored 0 is replaced by `d`. */
  function NumberOr(n: Option<real>, d: real): (r: real)
    ensures TruthyNumber(n) ==> r == n.value
    ensures !TruthyNumber(n) ==> r == d
  {
    if TruthyNumber(n) then n.value else d
  }

  /** With a default of 0, `n || 0` is the same as `n ?? 0`: treating null as
      zero is all the fallback does. */
  lemma NumberOrZeroIsNullAsZero(n: Option<real>)
    ensures NumberOr(n, 0.0) == n.GetOr(0.0)
  {
  }
}

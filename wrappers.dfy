/** The optional values that the storefront's optional chaining (`a?.b`) and
    `||` fallbacks work over. */
module Wrappers {

  datatype Option<+T> = None | Some(value: T) {

    /** `x || fallback` for an optional `x` whose present values are truthy. */
    function GetOr(fallback: T): T {
      match this
      case Some(v) => v
      case None => fallback
    }
  }
}

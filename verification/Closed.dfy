/** How a proof keeps a large predicate closed: `forall x :: Same(x, a) ==> P(x)` is `P(a)`, but as long as nobody mentions
    `Same(a, a)` the verifier does not look into `P`.
 */
module Closed {
  ghost predicate Same<T>(a: T, b: T) {
    a == b
  }
}

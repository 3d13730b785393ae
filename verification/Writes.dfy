/** How a write to a database or a cache can go. */
module Writes {
  /** The reply arrives, or the write fails before or after taking effect. */
  datatype Delivery = Delivered | LostBefore | LostAfter

  predicate TakesEffect(d: Delivery) {
    !d.LostBefore?
  }
}

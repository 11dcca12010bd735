/** The vocabulary several components share: optional values, the four target platforms, faulty writes. */
module Platforms {

  datatype Option<+T> = None | Some(value: T)

  /** Declaration order is the database enum's order, and also the recommendation tie-break order. */
  datatype Platform = Facebook | YouTube | TikTok | LineOa

  /** A write is acknowledged, fails without effect, or takes effect and loses its acknowledgement. */
  datatype Fault = Sound | LostBefore | LostAfter
}

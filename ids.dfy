/** Document identifiers. MongoDB's ObjectIds are modelled as natural numbers handed out in order. */
module Ids {
  type UserId = nat
  type ConfessionId = nat
}

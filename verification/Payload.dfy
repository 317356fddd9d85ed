/** What goes through the channels. */
module Payload {
  type Value(==, !new)
}

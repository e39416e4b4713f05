/** How a call to a store can go wrong: before it takes effect, or after it but before the caller hears of it. */
module Faults {
  datatype Fault = NoFault | LostBefore | LostAfter
}

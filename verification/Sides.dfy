/** The direction of a trade and of the order that copies it. */
module Sides {

  datatype Side = Buy | Sell
}

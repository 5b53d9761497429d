/** Lists with an element taken out. */
module Sequences {
  function Remove<T>(l: seq<T>, i: nat): seq<T>
    requires i < |l|
  {
    l[..i] + l[i + 1..]
  }
}

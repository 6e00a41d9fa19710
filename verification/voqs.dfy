/** Virtual output queues: what the switch, the port lists and the network tables call them. */
module Voqs {
  /** Input port and output port. */
  type Voq = (int, int)

  ghost predicate Distinct<T>(s: seq<T>) {
    forall i, j :: 0 <= i < j < |s| ==> s[i] != s[j]
  }
}

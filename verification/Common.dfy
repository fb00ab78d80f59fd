/** Names shared by the models. */
module Common {

  type Thread = nat

  datatype Option<+T> = None | Some(value: T)

  ghost predicate Distinct(order: seq<nat>) {
    forall i, j | 0 <= i < j < |order| :: order[i] != order[j]
  }
}

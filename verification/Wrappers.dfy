/** Shared value types: an optional value, and lists that grow at the head. */
module Wrappers {
  datatype Option<+T> = None | Some(value: T)

  datatype List<+T> = Nil | Cons(head: T, tail: List<T>)

  function Elements<T>(l: List<T>): set<T> {
    match l
    case Nil => {}
    case Cons(x, rest) => {x} + Elements(rest)
  }

  function Length<T>(l: List<T>): nat {
    match l
    case Nil => 0
    case Cons(_, rest) => 1 + Length(rest)
  }

  /** No element occurs twice. */
  predicate Distinct<T(==)>(l: List<T>) {
    match l
    case Nil => true
    case Cons(x, rest) => x !in Elements(rest) && Distinct(rest)
  }

  lemma {:induction false} DistinctSize<T>(l: List<T>)
    requires Distinct(l)
    ensures |Elements(l)| == Length(l)
  {
    if l.Cons? {
      DistinctSize(l.tail);
    }
  }
}

/** Associativity, stated where the solver needs to be told. */
module Laws {

  lemma ConcatAssociates<T>(a: seq<T>, b: seq<T>, c: seq<T>)
    ensures a + b + c == a + (b + c)
  {}

  lemma ProductAssociates(k: int, q: int, m: int)
    ensures k * (q * m) == (k * q) * m
  {}
}

/** General facts about sequence concatenation, stated once and used for strings and for lists
    of sites alike; each is kept apart so that the solver does not search for it. */
module Sequences {

  /** Concatenation is associative. */
  lemma Assoc<T>(a: seq<T>, b: seq<T>, c: seq<T>)
    ensures a + (b + c) == (a + b) + c
  {
  }

  /** The last part of a concatenation is the slice after the first. */
  lemma LastPart<T>(u: seq<T>, v: seq<T>)
    ensures (u + v)[|u|..|u| + |v|] == v
  {
  }

  /** A slice within the first part of a concatenation is a slice of that part. */
  lemma InPrefix<T>(u: seq<T>, v: seq<T>, i: nat, j: nat)
    requires i <= j <= |u|
    ensures (u + v)[i..j] == u[i..j]
  {
  }
}

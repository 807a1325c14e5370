/** An individual paired with its objective value, ordered by the objective alone. */
module Scoring {
  /** IndividualWithObjValue: both fields are fixed once built. */
  datatype Scored<I> = Scored(individual: I, objvalue: real) {
    /** operator<: compares the objective values only. */
    predicate Less(other: Scored<I>) {
      objvalue < other.objvalue
    }

    /** Neither entry is less than the other: an ordered multiset keeps both. */
    predicate Equivalent(other: Scored<I>) {
      !Less(other) && !other.Less(this)
    }
  }

  /** The individual plays no part in the comparison. */
  lemma LessIgnoresIndividual<I>(a: I, b: I, v: real, w: real)
    ensures Scored(a, v).Less(Scored(b, w)) <==> v < w
    ensures Scored(a, v).Less(Scored(b, w)) == Scored(b, v).Less(Scored(a, w))
  {
  }

  /** operator< is a strict weak order: irreflexive, transitive, and equivalence is transitive. */
  lemma LessIsStrictWeakOrder<I>(x: Scored<I>, y: Scored<I>, z: Scored<I>)
    ensures !x.Less(x)
    ensures x.Less(y) ==> !y.Less(x)
    ensures x.Less(y) && y.Less(z) ==> x.Less(z)
    ensures x.Equivalent(y) && y.Equivalent(z) ==> x.Equivalent(z)
  {
  }

  /** Entries are equivalent exactly when their objective values are equal. */
  lemma EquivalentIffEqualObjective<I>(x: Scored<I>, y: Scored<I>)
    ensures x.Equivalent(y) <==> x.objvalue == y.objvalue
  {
  }
}

/** The three-valued card attribute and its completion operation. */
module Attributes {

  /** One dimension of a card (shape, shading, color or count). The three
      variants carry no order: only equality and `Complete` matter. */
  datatype Property = First | Second | Third {

    /** The value that turns `this`, `other` and the result into a triple that
        is either all equal or all distinct. */
    function Complete(other: Property): (r: Property)
      ensures this == other ==> r == this
      ensures this != other ==> r != this && r != other
    {
      match (this, other)
      case (First, First) => First
      case (Second, Second) => Second
      case (Third, Third) => Third
      case (First, Second) | (Second, First) => Third
      case (First, Third) | (Third, First) => Second
      case (Second, Third) | (Third, Second) => First
    }
  }

  /** Three values are either all equal or pairwise distinct (never exactly two equal). */
  predicate Balanced(a: Property, b: Property, c: Property)
  {
    (a == b && b == c) || (a != b && b != c && a != c)
  }

  lemma CompleteCommutes(a: Property, b: Property)
    ensures a.Complete(b) == b.Complete(a)
  {
  }

  lemma CompleteSelf(a: Property)
    ensures a.Complete(a) == a
  {
  }

  /** Completing again with the first operand gives back the second one. */
  lemma CompleteRecovers(a: Property, b: Property)
    ensures a.Complete(a.Complete(b)) == b
  {
  }

  /** `Complete` is the one and only value that balances a pair. */
  lemma CompleteIffBalanced(a: Property, b: Property, c: Property)
    ensures a.Complete(b) == c <==> Balanced(a, b, c)
  {
  }

  /** Balanced triples stay balanced under any reordering. */
  lemma BalancedSymmetric(a: Property, b: Property, c: Property)
    requires Balanced(a, b, c)
    ensures Balanced(b, a, c) && Balanced(a, c, b) && Balanced(c, b, a)
  {
  }
}

/** A Set card: four independent attributes, and the card that completes a pair. */
module Cards {
  import opened Attributes

  datatype Card = Card(shape: Property, shading: Property, color: Property, count: Property) {

    /** The unique card that forms a set with `this` and `other`: attribute
        completion applied dimension by dimension. */
    function Complete(other: Card): (r: Card)
      ensures IsSet(this, other, r)
    {
      Card(shape.Complete(other.shape),
           shading.Complete(other.shading),
           color.Complete(other.color),
           count.Complete(other.count))
    }
  }

  /** The rule of the game: in every dimension the three values are all equal
      or pairwise distinct. */
  predicate IsSet(x: Card, y: Card, z: Card)
  {
    && Balanced(x.shape, y.shape, z.shape)
    && Balanced(x.shading, y.shading, z.shading)
    && Balanced(x.color, y.color, z.color)
    && Balanced(x.count, y.count, z.count)
  }

  /** The filter used by the set finder decides exactly the rule of the game. */
  lemma CompleteIffSet(x: Card, y: Card, z: Card)
    ensures x.Complete(y) == z <==> IsSet(x, y, z)
  {
  }

  lemma CompleteCommutes(x: Card, y: Card)
    ensures x.Complete(y) == y.Complete(x)
  {
  }

  lemma CompleteRecovers(x: Card, y: Card)
    ensures x.Complete(x.Complete(y)) == y
  {
  }

  /** Two different cards are completed by a third card different from both,
      so every set consists of three distinct cards. */
  lemma CompleteDistinct(x: Card, y: Card)
    requires x != y
    ensures x.Complete(y) != x && x.Complete(y) != y
  {
  }

  /** Being a set does not depend on the order of the three cards. */
  lemma IsSetSymmetric(x: Card, y: Card, z: Card)
    requires IsSet(x, y, z)
    ensures IsSet(y, x, z) && IsSet(x, z, y) && IsSet(z, y, x)
  {
  }
}

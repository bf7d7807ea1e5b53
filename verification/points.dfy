/** The points and line coefficients of the pairing engine, as opaque tokens.

    Field coordinates are not modelled: a non-identity point is named by an
    identifier, and a line coefficient records only where it came from --
    which preparation produced it, from which G2 point, at which position of
    the coefficient list and for which step of the Miller loop.  Two
    coefficients are the same line exactly when their records agree. */
module Points {

  /** A G1 point in affine form. */
  datatype G1Affine = G1Identity | G1Point(id: nat)

  /** A G2 point in affine form. */
  datatype G2Affine = G2Identity | G2Point(id: nat)

  /** The step of the Miller loop a coefficient belongs to: the doubling of
      the running point, the addition of q or of -q after a non-zero digit,
      and the two closing additions of pi(q) and of -pi^2(q). */
  datatype Step = Doubling | AddQ | AddNegQ | AddFrobQ | AddNegFrobSquaredQ

  /** Which preparation produced a coefficient: the projective triples of
      `G2Prepared` or the affine (slope, bias) pairs of `G2OnProvePrepared`. */
  datatype Form = Projective | Affine

  /** A line coefficient produced by preparing `origin`, stored at index
      `position` of the coefficient list, for step `step`. */
  datatype Coeff = Coeff(form: Form, origin: G2Affine, position: nat, step: Step)
}

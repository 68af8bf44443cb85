/** Fitting an embedding from the provider to the width of the vector column. The draft
    engine and the ingestion pipeline each carry a copy of this rule; both use this one. */
module Embedding {
  import opened Store

  /** Pads a short vector with zeros and truncates a long one to `Dimension` entries. */
  function NormalizeDimension(v: seq<real>): (r: seq<real>)
    ensures |r| == Dimension
    ensures |v| <= Dimension ==> r[..|v|] == v && forall i :: |v| <= i < Dimension ==> r[i] == 0.0
    ensures |v| >= Dimension ==> r == v[..Dimension]
  {
    if |v| == Dimension then v
    else if |v| < Dimension then v + seq(Dimension - |v|, _ => 0.0)
    else v[..Dimension]
  }

  /** A vector of the right width is left alone, so normalising twice changes nothing. */
  lemma NormalizeDimensionIdempotent(v: seq<real>)
    ensures NormalizeDimension(NormalizeDimension(v)) == NormalizeDimension(v)
  {
  }
}

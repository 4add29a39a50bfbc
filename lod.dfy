/** Level-of-detail choice for piece images: the on-screen size of a square, in
  * pixels, picks either the original vector images or one of the pre-rendered
  * raster tiers. */
module Lod {

  /** The raster tiers, in pixels, largest first. */
  const LodSizes: seq<int> := [64, 32, 16, 8, 4, 2]

  /** The image set handed to the piece drawer. */
  datatype ImageSet = Original | Tier(size: int)

  /** `chooseLOD`: a chain of thresholds at 48, 24, 12, 6, 3 and 2 pixels. */
  function ChooseLod(pixelSize: real): ImageSet
  {
    if pixelSize >= 48.0 then Original
    else if pixelSize >= 24.0 then Tier(64)
    else if pixelSize >= 12.0 then Tier(32)
    else if pixelSize >= 6.0 then Tier(16)
    else if pixelSize >= 3.0 then Tier(8)
    else if pixelSize >= 2.0 then Tier(4)
    else Tier(2)
  }

  /** The detail of an image set: the original images rank above every tier. */
  function Detail(s: ImageSet): int
  {
    match s
    case Original => 1000
    case Tier(n) => n
  }

  /** The original images are chosen exactly from 48 pixels on; below, the tier
    * is the one whose band `[lo, 2lo)` holds the size, and 2 below 2 pixels. */
  lemma ChooseLodBands(p: real)
    ensures ChooseLod(p) == Original <==> p >= 48.0
    ensures ChooseLod(p) == Tier(64) <==> 24.0 <= p < 48.0
    ensures ChooseLod(p) == Tier(32) <==> 12.0 <= p < 24.0
    ensures ChooseLod(p) == Tier(16) <==> 6.0 <= p < 12.0
    ensures ChooseLod(p) == Tier(8) <==> 3.0 <= p < 6.0
    ensures ChooseLod(p) == Tier(4) <==> 2.0 <= p < 3.0
    ensures ChooseLod(p) == Tier(2) <==> p < 2.0
  {
  }

  /** A larger square never gets a less detailed image set. */
  lemma ChooseLodMonotone(p: real, q: real)
    requires p <= q
    ensures Detail(ChooseLod(p)) <= Detail(ChooseLod(q))
  {
  }

  /** Every tier that can be chosen is one of the pre-rendered sizes. */
  lemma ChooseLodTierExists(p: real)
    ensures ChooseLod(p).Tier? ==> ChooseLod(p).size in LodSizes
  {
  }

  /** Every pre-rendered tier is chosen for some size: none is unreachable. */
  lemma EveryTierChosen(n: int)
    requires n in LodSizes
    ensures exists p :: ChooseLod(p) == Tier(n)
  {
    var p := if n == 2 then 1.0 else if n == 4 then 2.0 else (n as real) * 0.375;
    assert ChooseLod(p) == Tier(n);
  }
}

/** The shoe product data the footwear views work on.

    Fit classifications (per fit zone) are JavaScript objects passed along
    unchanged, so they are kept as values; lengths and likelihoods are
    numbers. */
module Shoes {
  import opened JsValues

  /** One length of a width variant in the inventory. */
  datatype LengthVariant = LengthVariant(lengthLabel: string, lengthSize: real)

  /** The lengths stocked in one width. */
  datatype WidthVariant = WidthVariant(widthLabel: string, lengthSizes: seq<LengthVariant>)

  /** The widths stocked in one colour. */
  datatype ColorVariant = ColorVariant(sizeVariants: seq<WidthVariant>)

  datatype Product = Product(
    gender: string,
    ageGroup: string,
    categories: seq<string>,
    bestWidth: string,
    fit: Value,
    colorSizeVariants: seq<ColorVariant>)

  /** One size of a size recommendation, with the likelihood that its
      length fits and the per-zone fit the backend reports for it. */
  datatype SizeRecommendation = SizeRecommendation(
    widthLabel: string,
    lengthLabel: string,
    lengthSize: real,
    lengthLikelihood: real,
    fitZones: Value)
}

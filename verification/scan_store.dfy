/** The scan store's pure helpers: the event that starts a scan, the
    population a gender is compared against, and the classification of
    each foot measurement against that population. */
module ScanStore {
  import opened JsValues

  // ---------------------------------------------------------------------
  // Starting a scan

  /** The configuration the event reads. */
  datatype ScanConfig = ScanConfig(
    chartLocale: Value,
    chartName: Value,
    language: Value,
    uiName: Value,
    scannerLedColors: Value)

  datatype ScanInput = ScanInput(ageGroup: Value, gender: Value)

  datatype Annotation = Annotation(
    chartLocale: Value,
    chartName: Value,
    language: Value,
    uiChartUrl: Value,
    ageGroup: Value,
    gender: Value)

  datatype ScanEvent = ScanEvent(event: string, annotation: Annotation, fullScan: bool, ledColors: Value)

  /** prepareScanEvent: a full 'start_scan' whose annotation carries the
      chart configuration and the customer's age group and gender. */
  function PrepareScanEvent(config: ScanConfig, input: ScanInput): (r: ScanEvent)
    ensures r.event == "start_scan" && r.fullScan
    ensures r.annotation.ageGroup == input.ageGroup && r.annotation.gender == input.gender
    ensures r.annotation.chartLocale == config.chartLocale && r.annotation.chartName == config.chartName
    ensures r.annotation.language == config.language && r.annotation.uiChartUrl == config.uiName
    ensures r.ledColors == config.scannerLedColors
  {
    ScanEvent(
      "start_scan",
      Annotation(config.chartLocale, config.chartName, config.language, config.uiName,
                 input.ageGroup, input.gender),
      true,
      config.scannerLedColors)
  }

  // ---------------------------------------------------------------------
  // Population

  /** getPopulationName. */
  function PopulationName(gender: Value): (r: string)
    ensures gender == Str("men") ==> r == "male"
    ensures gender == Str("women") ==> r == "female"
    ensures gender != Str("men") && gender != Str("women") ==> r == "unisex"
  {
    var name := "unisex";
    var name := if gender == Str("men") then "male" else name;
    if gender == Str("women") then "female" else name
  }

  // ---------------------------------------------------------------------
  // Relative sizes

  datatype MeasurementType =
    | AnkleWrap | ArchHeight | BallGirth | ForefootHeight | HeelWidth
    | InstepGirth | InstepHeight | Length | ShortHeelGirth | Width

  const AllTypes: set<MeasurementType> := {
    AnkleWrap, ArchHeight, BallGirth, ForefootHeight, HeelWidth,
    InstepGirth, InstepHeight, Length, ShortHeelGirth, Width
  }

  const ShortMediumLong: seq<string> := ["lang_short", "lang_medium", "lang_long"]
  const NarrowMediumWide: seq<string> := ["lang_narrow", "lang_medium", "lang_wide"]
  const LowMediumHigh: seq<string> := ["lang_low", "lang_medium", "lang_high"]
  const SmallMediumLarge: seq<string> := ["lang_small", "lang_medium", "lang_large"]

  /** labelsFromType: three labels, lowest band first, for each type. */
  function Labels(t: MeasurementType): (r: seq<string>)
    ensures |r| == 3 && r[1] == "lang_medium"
  {
    match t
    case AnkleWrap => ShortMediumLong
    case ArchHeight => LowMediumHigh
    case BallGirth => SmallMediumLarge
    case ForefootHeight => LowMediumHigh
    case HeelWidth => NarrowMediumWide
    case InstepGirth => SmallMediumLarge
    case InstepHeight => LowMediumHigh
    case Length => ShortMediumLong
    case ShortHeelGirth => SmallMediumLarge
    case Width => NarrowMediumWide
  }

  /** indexFromPopulation: the third of the population a percentile falls
      in. */
  function IndexFromPopulation(percentage: real): (r: nat)
    ensures r <= 2
    ensures r == 2 <==> percentage >= 200.0 / 3.0
    ensures r == 0 <==> percentage < 100.0 / 3.0
  {
    if percentage >= 2.0 / 3.0 * 100.0 then 2
    else if percentage >= 1.0 / 3.0 * 100.0 then 1
    else 0
  }

  /** valueFromPopulation: the percentile on the scale where the three
      bands are centred on 0, 1 and 2. */
  function ValueFromPopulation(percentage: real): (r: real)
    ensures 0.0 <= percentage <= 100.0 ==> -0.5 <= r <= 2.5
  {
    percentage / 100.0 * 3.0 - 0.5
  }

  datatype SingleSize = SingleSize(index: nat, value: real, labelKey: string)

  /** sizeFromPopulation. */
  function SizeFromPopulation(percentage: real, labels: seq<string>): (r: SingleSize)
    requires |labels| == 3
    ensures r.index <= 2 && r.labelKey == labels[r.index]
    ensures r.index == IndexFromPopulation(percentage) && r.value == ValueFromPopulation(percentage)
  {
    var index := IndexFromPopulation(percentage);
    SingleSize(index, ValueFromPopulation(percentage), labels[index])
  }

  datatype RelativeSize = RelativeSize(left: SingleSize, right: SingleSize, labels: seq<string>)

  /** getRelativeSizes: for every measurement type, the left and right
      percentiles classified against that type's labels. */
  function RelativeSizes(left: MeasurementType -> real, right: MeasurementType -> real)
    : (r: map<MeasurementType, RelativeSize>)
    ensures r.Keys == AllTypes
    ensures forall t :: t in r ==>
      && r[t].labels == Labels(t)
      && r[t].left.labelKey == Labels(t)[IndexFromPopulation(left(t))]
      && r[t].right.labelKey == Labels(t)[IndexFromPopulation(right(t))]
      && r[t].left.value == ValueFromPopulation(left(t))
      && r[t].right.value == ValueFromPopulation(right(t))
  {
    map t | t in AllTypes ::
      RelativeSize(SizeFromPopulation(left(t), Labels(t)), SizeFromPopulation(right(t), Labels(t)), Labels(t))
  }

  // ---------------------------------------------------------------------
  // Properties

  /** A higher percentile is never in a lower band, and always has a higher
      value. */
  lemma PopulationMonotone(p: real, q: real)
    requires p < q
    ensures IndexFromPopulation(p) <= IndexFromPopulation(q)
    ensures ValueFromPopulation(p) < ValueFromPopulation(q)
  {
  }

  /** Below the top percentile the band is the value rounded to the nearest
      whole number. */
  lemma IndexIsRoundedValue(p: real)
    requires 0.0 <= p < 100.0
    ensures IndexFromPopulation(p) as real - 0.5 <= ValueFromPopulation(p) < IndexFromPopulation(p) as real + 0.5
  {
  }

  /** The middle band is always labelled medium, whatever the type. */
  lemma MiddleBandIsMedium(t: MeasurementType, p: real)
    requires 100.0 / 3.0 <= p < 200.0 / 3.0
    ensures SizeFromPopulation(p, Labels(t)).labelKey == "lang_medium"
  {
  }
}

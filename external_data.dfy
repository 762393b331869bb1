/** The reference data the platform checks its figures against: the Ministry for the
    Environment's default emission factors, the wastewater-treatment-plant standards table, and
    the national carbon budget. Both tables are fixed; instants are milliseconds since the epoch. */
module ExternalData {
  import opened Types
  import JsStrings

  /** 2024-01-01T00:00:00Z, 2024-01-10T00:00:00Z and 2024-01-15T00:00:00Z. */
  const Jan1st2024Ms: int := 1704067200000
  const Jan10th2024Ms: int := 1704844800000
  const Jan15th2024Ms: int := 1705276800000

  /** The three categories with a default emission factor. */
  const MfeCategories: set<string> := {"waste-to-energy", "landfill-methane", "wastewater-treatment"}

  /** `fetchMFEData`: the entry for one of the three known categories, nothing otherwise. */
  function FetchMfeData(category: string): (d: Option<MfeEmissionsData>)
    ensures d.Some? <==> category in MfeCategories
    ensures d.Some? ==> d.value.category == category && d.value.defaultEmissionFactor > 0.0
                        && d.value.lastUpdated == Jan1st2024Ms
  {
    if category == "waste-to-energy" then
      Some(MfeEmissionsData("MFE-001", "waste-to-energy", 0.45, "kg CO2eq/kWh", Jan1st2024Ms))
    else if category == "landfill-methane" then
      Some(MfeEmissionsData("MFE-002", "landfill-methane", 28.0, "kg CO2eq/kg CH4", Jan1st2024Ms))
    else if category == "wastewater-treatment" then
      Some(MfeEmissionsData("MFE-003", "wastewater-treatment", 0.35, "kg CO2eq/kWh", Jan1st2024Ms))
    else None
  }

  /** The factor of each known category. */
  lemma MfeFactors()
    ensures FetchMfeData("waste-to-energy").value.defaultEmissionFactor == 0.45
    ensures FetchMfeData("landfill-methane").value.defaultEmissionFactor == 28.0
    ensures FetchMfeData("wastewater-treatment").value.defaultEmissionFactor == 0.35
    ensures FetchMfeData("waste-to-energy").value.id != FetchMfeData("landfill-methane").value.id
    ensures FetchMfeData("landfill-methane").value.id != FetchMfeData("wastewater-treatment").value.id
    ensures FetchMfeData("waste-to-energy").value.id != FetchMfeData("wastewater-treatment").value.id
  {
  }

  /** The lookup key of a plant name: lower-cased, each run of whitespace replaced by one '-'. */
  function WwtpKey(plantName: string): (key: string)
    ensures JsStrings.NoWhitespace(key)
  {
    JsStrings.ReplaceRunsFacts(JsStrings.ToLowerAscii(plantName), '-');
    JsStrings.ReplaceWhitespaceRuns(JsStrings.ToLowerAscii(plantName), '-')
  }

  const AucklandWwtp := WwtpStandardData(
    "WWTP-001", "Auckland Wastewater Treatment Plant",
    GeoLocation(-36.8485, 174.7633, Some("Auckland, New Zealand")),
    500000.0, 0.28, ["ISO 14001", "ISO 50001", "NZ Water & Waste"], Jan15th2024Ms)

  const WellingtonWwtp := WwtpStandardData(
    "WWTP-002", "Wellington Wastewater Treatment Plant",
    GeoLocation(-41.2865, 174.7762, Some("Wellington, New Zealand")),
    300000.0, 0.32, ["ISO 14001", "NZ Water & Waste"], Jan10th2024Ms)

  /** `fetchWWTPData`: the plant whose key the normalised name is, nothing otherwise. */
  function FetchWwtpData(plantName: string): (d: Option<WwtpStandardData>)
    ensures d.Some? <==> WwtpKey(plantName) in {"auckland-wwtp", "wellington-wwtp"}
    ensures WwtpKey(plantName) == "auckland-wwtp" ==> d == Some(AucklandWwtp)
    ensures WwtpKey(plantName) == "wellington-wwtp" ==> d == Some(WellingtonWwtp)
  {
    var key := WwtpKey(plantName);
    if key == "auckland-wwtp" then Some(AucklandWwtp)
    else if key == "wellington-wwtp" then Some(WellingtonWwtp)
    else None
  }

  /** A name already in key form is its own key: so each plant is found under its key. */
  lemma KeyFormIsOwnKey(name: string)
    requires JsStrings.NoWhitespace(name)
    requires JsStrings.NoUpperAscii(name)
    ensures WwtpKey(name) == name
    ensures FetchWwtpData(name).Some? <==> name in {"auckland-wwtp", "wellington-wwtp"}
  {
    JsStrings.ToLowerKeepsLower(name);
    JsStrings.ReplaceRunsFacts(name, '-');
  }

  /** Two words separated by whitespace make the key of the lower-cased words joined by '-'. */
  lemma TwoWordKey(a: string, gap: string, b: string)
    requires JsStrings.NoWhitespace(a) && JsStrings.NoWhitespace(b)
    requires gap != [] && JsStrings.AllWhitespace(gap)
    ensures WwtpKey(a + gap + b) == JsStrings.ToLowerAscii(a) + "-" + JsStrings.ToLowerAscii(b)
  {
    var la, lb := JsStrings.ToLowerAscii(a), JsStrings.ToLowerAscii(b);
    assert JsStrings.NoWhitespace(la) by { JsStrings.ToLowerWhitespace(a); }
    assert JsStrings.NoWhitespace(lb) by { JsStrings.ToLowerWhitespace(b); }
    assert JsStrings.ReplaceWhitespaceRuns(la + gap + lb, '-') == la + "-" + lb by {
      JsStrings.ReplaceRunsTwoWords(la, gap, lb, '-');
    }
    assert JsStrings.ToLowerAscii(a + gap + b) == la + gap + lb by {
      JsStrings.ToLowerConcat3(a, gap, b);
      JsStrings.ToLowerWhitespace(gap);
    }
  }

  lemma AucklandLower()
    ensures JsStrings.ToLowerAscii("Auckland") == "auckland"
  {
  }

  lemma WwtpLower()
    ensures JsStrings.ToLowerAscii("WWTP") == "wwtp"
  {
  }

  lemma AucklandWords()
    ensures JsStrings.NoWhitespace("Auckland") && JsStrings.NoWhitespace("WWTP")
    ensures JsStrings.AllWhitespace("   ")
    ensures "Auckland" + "   " + "WWTP" == "Auckland   WWTP"
    ensures "auckland" + "-" + "wwtp" == "auckland-wwtp"
  {
  }

  /** Capitals and whitespace runs do not matter: "Auckland   WWTP" finds the Auckland plant. */
  lemma SpacedNameFindsPlant()
    ensures FetchWwtpData("Auckland   WWTP") == Some(AucklandWwtp)
  {
    AucklandLower();
    WwtpLower();
    AucklandWords();
    TwoWordKey("Auckland", "   ", "WWTP");
  }

  /** The text of a validation message; the rendering of the variance to two decimals is not
      part of this model, so the variance is kept as a number. */
  datatype MfeMessage = NoMfeData(category: string) | WithinRange(variance: real)
                      | OutsideRange(variance: real)
  {
    function Prefix(): string {
      match this
      case NoMfeData(c) => "No MFE data available for category: " + c
      case WithinRange(_) => "Emissions within acceptable range ("
      case OutsideRange(_) => "Emissions outside acceptable range ("
    }
  }

  datatype MfeValidation = MfeValidation(valid: bool, variance: real, message: MfeMessage)

  /** The percentage by which `actual` differs from `factor`. */
  function Variance(actual: real, factor: real): real
    requires factor != 0.0
  {
    (actual - factor) / factor * 100.0
  }

  /** `validateAgainstMFE`: within a 15 % tolerance of the category's default factor. */
  function ValidateAgainstMfe(actualEmissions: real, category: string): (v: MfeValidation)
    ensures category !in MfeCategories ==> v == MfeValidation(false, 0.0, NoMfeData(category))
    ensures category in MfeCategories ==>
              && v.variance == Variance(actualEmissions, FetchMfeData(category).value.defaultEmissionFactor)
              && (v.valid <==> -15.0 <= v.variance <= 15.0)
              && v.message == (if v.valid then WithinRange(v.variance) else OutsideRange(v.variance))
  {
    var d := FetchMfeData(category);
    if d.None? then MfeValidation(false, 0.0, NoMfeData(category))
    else
      var variance := Variance(actualEmissions, d.value.defaultEmissionFactor);
      var acceptable := (if variance < 0.0 then -variance else variance) <= 15.0;
      MfeValidation(acceptable, variance,
                    if acceptable then WithinRange(variance) else OutsideRange(variance))
  }

  /** Validation accepts exactly the values within 15 % of the factor, either side. */
  lemma MfeToleranceBand(actual: real, category: string)
    requires category in MfeCategories
    ensures var f := FetchMfeData(category).value.defaultEmissionFactor;
            ValidateAgainstMfe(actual, category).valid <==> 0.85 * f <= actual <= 1.15 * f
  {
    var f := FetchMfeData(category).value.defaultEmissionFactor;
    var v := Variance(actual, f);
    assert v * f == (actual - f) * 100.0;
    if category == "waste-to-energy" {
      assert f == 0.45;
    } else if category == "landfill-methane" {
      assert f == 28.0;
    } else {
      assert f == 0.35;
    }
  }

  datatype Compliance = Compliance(compliant: bool, standards: seq<string>,
                                   lastInspection: Option<int>)

  /** `getWWTPCompliance`, with the instant one calendar year before now as a parameter:
      compliant when the plant was inspected since then and meets at least one standard. */
  function GetWwtpCompliance(plantName: string, oneYearAgo: int): (c: Compliance)
    ensures FetchWwtpData(plantName).None? ==> c == Compliance(false, [], None)
    ensures FetchWwtpData(plantName).Some? ==>
              var d := FetchWwtpData(plantName).value;
              && c.standards == d.standardCompliance && c.lastInspection == Some(d.lastInspection)
              && (c.compliant <==> d.lastInspection >= oneYearAgo && |d.standardCompliance| > 0)
  {
    var d := FetchWwtpData(plantName);
    if d.None? then Compliance(false, [], None)
    else
      Compliance(d.value.lastInspection >= oneYearAgo && |d.value.standardCompliance| > 0,
                 d.value.standardCompliance, Some(d.value.lastInspection))
  }

  /** Every known plant lists standards, so its compliance is down to the inspection date alone;
      a plant compliant at one cut-off stays compliant at any earlier one. */
  lemma ComplianceFacts(plantName: string, cutoff: int, earlier: int)
    requires earlier <= cutoff
    ensures GetWwtpCompliance(plantName, cutoff).compliant <==>
              FetchWwtpData(plantName).Some? && FetchWwtpData(plantName).value.lastInspection >= cutoff
    ensures GetWwtpCompliance(plantName, cutoff).compliant ==>
              GetWwtpCompliance(plantName, earlier).compliant
    ensures GetWwtpCompliance(plantName, cutoff).compliant ==> cutoff <= Jan15th2024Ms
  {
  }

  datatype NationalBudgetValidation = NationalBudgetValidation(
    valid: bool, message: string, ndcUrl: string)

  const NdcUrl: string :=
    "https://www.environment.govt.nz/what-government-is-doing/areas-of-work/climate-change/emissions-reduction-targets/"

  /** `validateNationalCarbonBudget`: every amount is accepted, for any country (New Zealand,
      "NZ", when the caller names none). */
  function ValidateNationalCarbonBudget(co2Equivalent: real, country: string)
    : (v: NationalBudgetValidation)
    ensures v.valid && v.ndcUrl == NdcUrl
    ensures v.message == "Carbon credit validated against " + country
                         + " Nationally Determined Contribution (NDC)"
  {
    NationalBudgetValidation(
      true,
      "Carbon credit validated against " + country + " Nationally Determined Contribution (NDC)",
      NdcUrl)
  }
}

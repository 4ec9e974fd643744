/** The two recommendation pages of app.py: `/crop-result` maps a soil kind to
    crops and `/fertilizer-result` maps a crop to fertilizers. Each lowercases
    the submitted text and looks it up in a constant four-entry table, falling
    back to a fixed sentence on a miss. */
module Recommendations {
  import opened Ascii
  import opened Http

  const SoilToCrop: map<string, string> := map[
    "loamy" := "Rice, Wheat",
    "sandy" := "Groundnut, Potato",
    "clay" := "Paddy, Sugarcane",
    "black" := "Cotton, Soybean"
  ]
  const NoCropFound := "No matching crop found."

  const CropToFertilizer: map<string, string> := map[
    "rice" := "Urea + DAP",
    "wheat" := "Urea + MOP",
    "maize" := "NPK 20-20-20",
    "cotton" := "NPK + Potash"
  ]
  const NoFertilizerFound := "No fertilizer found."

  /** Python's `table.get(key, default)`. */
  function Get(table: map<string, string>, key: string, default: string): (r: string)
    ensures r in table.Values || r == default
    ensures key !in table ==> r == default
  {
    if key in table then table[key] else default
  }

  /** What makes a recommendation table answer unambiguously: its keys are
      lower case (so each is reachable after lowering), no two keys share a
      value, and the fallback is not one of the values. */
  predicate WellFormedTable(table: map<string, string>, fallback: string) {
    && (forall k :: k in table ==> IsLowerCase(k))
    && (forall k1, k2 :: k1 in table && k2 in table && table[k1] == table[k2] ==> k1 == k2)
    && fallback !in table.Values
  }

  /** `soil_map.get(soil.lower(), "No matching crop found.")`. */
  function CropFor(soil: string): (crop: string)
    ensures crop in SoilToCrop.Values || crop == NoCropFound
  {
    Get(SoilToCrop, Lower(soil), NoCropFound)
  }

  /** `fert_map.get(crop_name.lower(), "No fertilizer found.")`. */
  function FertilizerFor(cropName: string): (fertilizer: string)
    ensures fertilizer in CropToFertilizer.Values || fertilizer == NoFertilizerFound
  {
    Get(CropToFertilizer, Lower(cropName), NoFertilizerFound)
  }

  /** The `/crop-result` handler: reads the `soil` form field. */
  function CropResult(form: Form): (r: Response)
    ensures "soil" !in form <==> r == MissingFormField("soil")
    ensures "soil" in form ==>
              r.Page? && r.template == "crop-result.html"
              && (r.value in SoilToCrop.Values || r.value == NoCropFound)
    ensures "soil" in form ==> r == Page("crop-result.html", CropFor(form["soil"]))
  {
    if "soil" !in form then MissingFormField("soil")
    else Page("crop-result.html", CropFor(form["soil"]))
  }

  /** The `/fertilizer-result` handler: reads the `crop` form field. */
  function FertilizerResult(form: Form): (r: Response)
    ensures "crop" !in form <==> r == MissingFormField("crop")
    ensures "crop" in form ==>
              r.Page? && r.template == "fertilizer-result.html"
              && (r.value in CropToFertilizer.Values || r.value == NoFertilizerFound)
    ensures "crop" in form ==> r == Page("fertilizer-result.html", FertilizerFor(form["crop"]))
  {
    if "crop" !in form then MissingFormField("crop")
    else Page("fertilizer-result.html", FertilizerFor(form["crop"]))
  }

  // ----- lookups on a well-formed table -----

  /** A lowered lookup yields the value of key `k` exactly when the text lowers to `k`. */
  lemma LookupHitIff(table: map<string, string>, fallback: string, text: string, k: string)
    requires WellFormedTable(table, fallback)
    requires k in table
    ensures Get(table, Lower(text), fallback) == table[k] <==> Lower(text) == k
  {
    assert table[k] in table.Values;
  }

  /** A lowered lookup yields the fallback exactly when the lowered text is no key. */
  lemma LookupMissIff(table: map<string, string>, fallback: string, text: string)
    requires WellFormedTable(table, fallback)
    ensures Get(table, Lower(text), fallback) == fallback <==> Lower(text) !in table
  {
    var key := Lower(text);
    if key in table {
      assert table[key] in table.Values;
    }
  }

  /** A lowered lookup does not depend on the case of its input. */
  lemma LookupCaseInsensitive(table: map<string, string>, fallback: string, text: string)
    ensures Get(table, Lower(Lower(text)), fallback) == Get(table, Lower(text), fallback)
  {
    LowerIdempotent(text);
  }

  // ----- the two tables -----

  /** A four-entry table with distinct lower-case keys, distinct values and a
      fallback outside them is well formed. */
  lemma FourEntryTable(table: map<string, string>, fallback: string,
                       a: string, b: string, c: string, d: string,
                       va: string, vb: string, vc: string, vd: string)
    requires table == map[a := va, b := vb, c := vc, d := vd]
    requires a != b && a != c && a != d && b != c && b != d && c != d
    requires IsLowerCase(a) && IsLowerCase(b) && IsLowerCase(c) && IsLowerCase(d)
    requires va != vb && va != vc && va != vd && vb != vc && vb != vd && vc != vd
    requires fallback != va && fallback != vb && fallback != vc && fallback != vd
    ensures WellFormedTable(table, fallback)
  {
    forall k | k in table ensures IsLowerCase(k) {
      assert k == a || k == b || k == c || k == d;
    }
    forall v | v in table.Values ensures v == va || v == vb || v == vc || v == vd {
      var k :| k in table && table[k] == v;
    }
  }

  lemma SoilToCropWellFormed()
    ensures WellFormedTable(SoilToCrop, NoCropFound)
  {
    assert IsLowerCase("loamy") && IsLowerCase("sandy") && IsLowerCase("clay") && IsLowerCase("black");
    FourEntryTable(SoilToCrop, NoCropFound, "loamy", "sandy", "clay", "black",
                   "Rice, Wheat", "Groundnut, Potato", "Paddy, Sugarcane", "Cotton, Soybean");
  }

  lemma CropToFertilizerWellFormed()
    ensures WellFormedTable(CropToFertilizer, NoFertilizerFound)
  {
    assert IsLowerCase("rice") && IsLowerCase("wheat") && IsLowerCase("maize") && IsLowerCase("cotton");
    FourEntryTable(CropToFertilizer, NoFertilizerFound, "rice", "wheat", "maize", "cotton",
                   "Urea + DAP", "Urea + MOP", "NPK 20-20-20", "NPK + Potash");
  }

  /** A map display with four distinct keys has four entries. */
  lemma FourEntryCount(table: map<string, string>,
                       a: string, b: string, c: string, d: string,
                       va: string, vb: string, vc: string, vd: string)
    requires table == map[a := va, b := vb, c := vc, d := vd]
    requires a != b && a != c && a != d && b != c && b != d && c != d
    ensures |table| == 4
  {
    assert table.Keys == {a, b, c, d};
    assert |{a, b}| == 2 by { assert {a, b} == {a} + {b}; }
    assert |{a, b, c}| == 3 by { assert {a, b, c} == {a, b} + {c}; }
    assert {a, b, c, d} == {a, b, c} + {d};
  }

  /** Each recommendation table has exactly four entries. */
  lemma TablesHaveFourEntries()
    ensures |SoilToCrop| == 4
    ensures |CropToFertilizer| == 4
  {
    FourEntryCount(SoilToCrop, "loamy", "sandy", "clay", "black",
                   "Rice, Wheat", "Groundnut, Potato", "Paddy, Sugarcane", "Cotton, Soybean");
    FourEntryCount(CropToFertilizer, "rice", "wheat", "maize", "cotton",
                   "Urea + DAP", "Urea + MOP", "NPK 20-20-20", "NPK + Potash");
  }

  /** Each of the four crop answers is given for exactly its soil kind, after
      lowering, and the fallback for every other input. */
  lemma CropForExactly(soil: string)
    ensures CropFor(soil) == "Rice, Wheat" <==> Lower(soil) == "loamy"
    ensures CropFor(soil) == "Groundnut, Potato" <==> Lower(soil) == "sandy"
    ensures CropFor(soil) == "Paddy, Sugarcane" <==> Lower(soil) == "clay"
    ensures CropFor(soil) == "Cotton, Soybean" <==> Lower(soil) == "black"
    ensures CropFor(soil) == NoCropFound <==> Lower(soil) !in {"loamy", "sandy", "clay", "black"}
  {
    SoilToCropWellFormed();
    assert SoilToCrop["loamy"] == "Rice, Wheat";
    LookupHitIff(SoilToCrop, NoCropFound, soil, "loamy");
    assert SoilToCrop["sandy"] == "Groundnut, Potato";
    LookupHitIff(SoilToCrop, NoCropFound, soil, "sandy");
    assert SoilToCrop["clay"] == "Paddy, Sugarcane";
    LookupHitIff(SoilToCrop, NoCropFound, soil, "clay");
    assert SoilToCrop["black"] == "Cotton, Soybean";
    LookupHitIff(SoilToCrop, NoCropFound, soil, "black");
    LookupMissIff(SoilToCrop, NoCropFound, soil);
    assert SoilToCrop.Keys == {"loamy", "sandy", "clay", "black"};
  }

  /** Each of the four fertilizer answers is given for exactly its crop, after
      lowering, and the fallback for every other input. */
  lemma FertilizerForExactly(cropName: string)
    ensures FertilizerFor(cropName) == "Urea + DAP" <==> Lower(cropName) == "rice"
    ensures FertilizerFor(cropName) == "Urea + MOP" <==> Lower(cropName) == "wheat"
    ensures FertilizerFor(cropName) == "NPK 20-20-20" <==> Lower(cropName) == "maize"
    ensures FertilizerFor(cropName) == "NPK + Potash" <==> Lower(cropName) == "cotton"
    ensures FertilizerFor(cropName) == NoFertilizerFound <==>
            Lower(cropName) !in {"rice", "wheat", "maize", "cotton"}
  {
    CropToFertilizerWellFormed();
    assert CropToFertilizer["rice"] == "Urea + DAP";
    LookupHitIff(CropToFertilizer, NoFertilizerFound, cropName, "rice");
    assert CropToFertilizer["wheat"] == "Urea + MOP";
    LookupHitIff(CropToFertilizer, NoFertilizerFound, cropName, "wheat");
    assert CropToFertilizer["maize"] == "NPK 20-20-20";
    LookupHitIff(CropToFertilizer, NoFertilizerFound, cropName, "maize");
    assert CropToFertilizer["cotton"] == "NPK + Potash";
    LookupHitIff(CropToFertilizer, NoFertilizerFound, cropName, "cotton");
    LookupMissIff(CropToFertilizer, NoFertilizerFound, cropName);
    assert CropToFertilizer.Keys == {"rice", "wheat", "maize", "cotton"};
  }

  /** Both lookups ignore case, and each answers with one of five fixed strings. */
  lemma LookupsIgnoreCase(text: string)
    ensures CropFor(text) == CropFor(Lower(text))
    ensures FertilizerFor(text) == FertilizerFor(Lower(text))
    ensures CropFor(text) in {"Rice, Wheat", "Groundnut, Potato", "Paddy, Sugarcane",
                              "Cotton, Soybean", NoCropFound}
    ensures FertilizerFor(text) in {"Urea + DAP", "Urea + MOP", "NPK 20-20-20",
                                    "NPK + Potash", NoFertilizerFound}
  {
    LookupCaseInsensitive(SoilToCrop, NoCropFound, text);
    LookupCaseInsensitive(CropToFertilizer, NoFertilizerFound, text);
    CropForExactly(text);
    FertilizerForExactly(text);
  }

  /** The soil kind may be typed in any mix of cases: "LOAMY" and "Loamy" are
      both answered like "loamy". */
  lemma CropForAnyCase(soil: string)
    ensures CropFor(soil) == "Rice, Wheat" <==>
            |soil| == 5 && forall i :: 0 <= i < 5 ==> SameLetterAnyCase(soil[i], "loamy"[i])
  {
    assert IsLowerCase("loamy");
    LowerEqualsIff(soil, "loamy");
    CropForExactly(soil);
  }

  /** The crop page answers a submitted soil kind with its table entry exactly
      when the text lowers to that entry's key, and with the fallback exactly
      when it lowers to no key; the case of the submitted text never matters. */
  lemma CropResultRendersLookup(form: Form)
    requires "soil" in form
    ensures CropResult(form) == Page("crop-result.html", "Rice, Wheat") <==> Lower(form["soil"]) == "loamy"
    ensures CropResult(form) == Page("crop-result.html", "Groundnut, Potato") <==> Lower(form["soil"]) == "sandy"
    ensures CropResult(form) == Page("crop-result.html", "Paddy, Sugarcane") <==> Lower(form["soil"]) == "clay"
    ensures CropResult(form) == Page("crop-result.html", "Cotton, Soybean") <==> Lower(form["soil"]) == "black"
    ensures CropResult(form) == Page("crop-result.html", NoCropFound) <==>
            Lower(form["soil"]) !in {"loamy", "sandy", "clay", "black"}
    ensures CropResult(form) == CropResult(form["soil" := Lower(form["soil"])])
  {
    CropForExactly(form["soil"]);
    LookupsIgnoreCase(form["soil"]);
  }

  /** The fertilizer page answers a submitted crop name with its table entry
      exactly when the text lowers to that entry's key, and with the fallback
      exactly when it lowers to no key; the case of the submitted text never
      matters. */
  lemma FertilizerResultRendersLookup(form: Form)
    requires "crop" in form
    ensures FertilizerResult(form) == Page("fertilizer-result.html", "Urea + DAP") <==> Lower(form["crop"]) == "rice"
    ensures FertilizerResult(form) == Page("fertilizer-result.html", "Urea + MOP") <==> Lower(form["crop"]) == "wheat"
    ensures FertilizerResult(form) == Page("fertilizer-result.html", "NPK 20-20-20") <==> Lower(form["crop"]) == "maize"
    ensures FertilizerResult(form) == Page("fertilizer-result.html", "NPK + Potash") <==> Lower(form["crop"]) == "cotton"
    ensures FertilizerResult(form) == Page("fertilizer-result.html", NoFertilizerFound) <==>
            Lower(form["crop"]) !in {"rice", "wheat", "maize", "cotton"}
    ensures FertilizerResult(form) == FertilizerResult(form["crop" := Lower(form["crop"])])
  {
    FertilizerForExactly(form["crop"]);
    LookupsIgnoreCase(form["crop"]);
  }
}

/**
 * `get_menu_category`: a menu item of a ward-spending report is lower-cased and
 * matched against twelve keyword groups in a fixed priority order; the label of the
 * first group one of whose keywords occurs in it is the item's category, "Misc." when
 * none does.  `STANDARD_CATEGORY` maps each keyword to its group's label.
 */
module Categorization {
  import opened Text

  /** The thirteen category labels. */
  function Labels(): set<string> {
    {"Pedestrian Infrastructure", "Bicycle Infrastructure", "Lighting", "Street Resurfacing", "Alleys", "Misc. CDOT",
     "Beautification", "Street Redesign", "Sidewalk Repair", "Police Cameras", "Parks", "Viaducts", "Misc."}
  }

  /** `get_menu_category(item)`: the item is lower-cased, then run through the keyword chain. */
  function GetMenuCategory(item: string): (r: string)
    ensures r in Labels()
  {
    KeywordCategory(Lower(item))
  }

  /** The if/elif chain of `get_menu_category` over an item already lower-cased. */
  function KeywordCategory(item: string): string {
    if Contains(item, "pedestrian") || Contains(item, "bump outs") then "Pedestrian Infrastructure"
    else if Contains(item, "bicycle") || Contains(item, "bike") || Contains(item, "neighborhood greenway") then
      "Bicycle Infrastructure"
    else if Contains(item, "light") then "Lighting"
    else if Contains(item, "street resurfacing") || Contains(item, "street speed hump replacement")
            || Contains(item, "curb & gutter") then
      "Street Resurfacing"
    else if Contains(item, "alley") then "Alleys"
    else if Contains(item, "miscellaneous cdot projects") then "Misc. CDOT"
    else if Contains(item, "mural") || Contains(item, "public art") || Contains(item, "tree planting") then
      "Beautification"
    else if Contains(item, "turn arrow") || Contains(item, "street speed hump menu") || Contains(item, "pavement markings")
            || Contains(item, "traffic circle") || Contains(item, "cul-de-sac") || Contains(item, "diagnol parking") then
      "Street Redesign"
    else if Contains(item, "sidewalk") then "Sidewalk Repair"
    else if Contains(item, "pod camera") then "Police Cameras"
    else if Contains(item, "park") || Contains(item, "playground") || Contains(item, "garden") then "Parks"
    else if Contains(item, "viaduct") then "Viaducts"
    else "Misc."
  }

  // ---------------------------------------------------------------------------------
  // The chain as a priority table

  /** The keyword groups in the order the chain tests them, each with its label. */
  function MenuGroups(): seq<(string, seq<string>)> {
    [("Pedestrian Infrastructure", ["pedestrian", "bump outs"]),
     ("Bicycle Infrastructure", ["bicycle", "bike", "neighborhood greenway"]),
     ("Lighting", ["light"]),
     ("Street Resurfacing", ["street resurfacing", "street speed hump replacement", "curb & gutter"]),
     ("Alleys", ["alley"]),
     ("Misc. CDOT", ["miscellaneous cdot projects"]),
     ("Beautification", ["mural", "public art", "tree planting"]),
     ("Street Redesign", ["turn arrow", "street speed hump menu", "pavement markings", "traffic circle", "cul-de-sac",
                          "diagnol parking"]),
     ("Sidewalk Repair", ["sidewalk"]),
     ("Police Cameras", ["pod camera"]),
     ("Parks", ["park", "playground", "garden"]),
     ("Viaducts", ["viaduct"])]
  }

  /** Some keyword of ws occurs in s. */
  predicate AnyIn(ws: seq<string>, s: string) {
    exists i | 0 <= i < |ws| :: Contains(s, ws[i])
  }

  /** The label of the first group from index i on with a keyword in s; "Misc." when there is none. */
  function CategoryFrom(groups: seq<(string, seq<string>)>, s: string, i: nat): string
    decreases |groups| - i
  {
    if i >= |groups| then "Misc."
    else if AnyIn(groups[i].1, s) then groups[i].0
    else CategoryFrom(groups, s, i + 1)
  }

  /** The first-match search over a priority table. */
  function TableCategory(groups: seq<(string, seq<string>)>, s: string): string {
    CategoryFrom(groups, s, 0)
  }

  /** The search answers "Misc." when no group from index i on has a keyword in s. */
  lemma {:induction false} CategoryFromNone(groups: seq<(string, seq<string>)>, s: string, i: nat)
    requires forall j | i <= j < |groups| :: !AnyIn(groups[j].1, s)
    ensures CategoryFrom(groups, s, i) == "Misc."
    decreases |groups| - i
  {
    if i < |groups| {
      CategoryFromNone(groups, s, i + 1);
    }
  }

  /** The search answers the label of group k when k is the first group from index i on with a keyword in s. */
  lemma {:induction false} CategoryFromFirst(groups: seq<(string, seq<string>)>, s: string, i: nat, k: nat)
    requires i <= k < |groups| && AnyIn(groups[k].1, s)
    requires forall j | i <= j < k :: !AnyIn(groups[j].1, s)
    ensures CategoryFrom(groups, s, i) == groups[k].0
    decreases k - i
  {
    if i < k {
      CategoryFromFirst(groups, s, i + 1, k);
    }
  }

  /** Whenever some group from index i on has a keyword in s, the search answers the first such group's label. */
  lemma {:induction false} CategoryFromHit(groups: seq<(string, seq<string>)>, s: string, i: nat)
    requires exists j | i <= j < |groups| :: AnyIn(groups[j].1, s)
    ensures exists k | i <= k < |groups| ::
      && AnyIn(groups[k].1, s) && (forall j | i <= j < k :: !AnyIn(groups[j].1, s))
      && CategoryFrom(groups, s, i) == groups[k].0
    decreases |groups| - i
  {
    if !AnyIn(groups[i].1, s) {
      CategoryFromHit(groups, s, i + 1);
      var k :| i + 1 <= k < |groups| && AnyIn(groups[k].1, s) && (forall j | i + 1 <= j < k :: !AnyIn(groups[j].1, s))
        && CategoryFrom(groups, s, i + 1) == groups[k].0;
      assert forall j | i <= j < k :: !AnyIn(groups[j].1, s);
    }
  }

  lemma {:induction false} AnyInOne(a: string, s: string)
    ensures AnyIn([a], s) <==> Contains(s, a)
  {
    if Contains(s, a) {
      assert Contains(s, [a][0]);
    }
  }

  lemma {:induction false} AnyInTwo(a: string, b: string, s: string)
    ensures AnyIn([a, b], s) <==> Contains(s, a) || Contains(s, b)
  {
    var ws := [a, b];
    if Contains(s, a) {
      assert Contains(s, ws[0]);
    } else if Contains(s, b) {
      assert Contains(s, ws[1]);
    }
  }

  lemma {:induction false} AnyInThree(a: string, b: string, c: string, s: string)
    ensures AnyIn([a, b, c], s) <==> Contains(s, a) || Contains(s, b) || Contains(s, c)
  {
    var ws := [a, b, c];
    if Contains(s, a) {
      assert Contains(s, ws[0]);
    } else if Contains(s, b) {
      assert Contains(s, ws[1]);
    } else if Contains(s, c) {
      assert Contains(s, ws[2]);
    }
  }

  lemma {:induction false} AnyInSix(a: string, b: string, c: string, d: string, e: string, f: string, s: string)
    ensures AnyIn([a, b, c, d, e, f], s) <==>
      Contains(s, a) || Contains(s, b) || Contains(s, c) || Contains(s, d) || Contains(s, e) || Contains(s, f)
  {
    var ws := [a, b, c, d, e, f];
    if Contains(s, a) {
      assert Contains(s, ws[0]);
    } else if Contains(s, b) {
      assert Contains(s, ws[1]);
    } else if Contains(s, c) {
      assert Contains(s, ws[2]);
    } else if Contains(s, d) {
      assert Contains(s, ws[3]);
    } else if Contains(s, e) {
      assert Contains(s, ws[4]);
    } else if Contains(s, f) {
      assert Contains(s, ws[5]);
    }
  }

  /** The if/elif chain is the first-match search over the priority table. */
  lemma {:induction false} ChainIsTable(item: string)
    ensures GetMenuCategory(item) == TableCategory(MenuGroups(), Lower(item))
  {
    ChainOnTable(MenuGroups(), Lower(item));
  }

  lemma {:induction false} ChainOnTable(groups: seq<(string, seq<string>)>, s: string)
    requires groups == MenuGroups()
    ensures KeywordCategory(s) == CategoryFrom(groups, s, 0)
  {
    AnyInTwo("pedestrian", "bump outs", s);
    AnyInThree("bicycle", "bike", "neighborhood greenway", s);
    AnyInOne("light", s);
    AnyInThree("street resurfacing", "street speed hump replacement", "curb & gutter", s);
    AnyInOne("alley", s);
    AnyInOne("miscellaneous cdot projects", s);
    AnyInThree("mural", "public art", "tree planting", s);
    AnyInSix("turn arrow", "street speed hump menu", "pavement markings", "traffic circle", "cul-de-sac", "diagnol parking", s);
    AnyInOne("sidewalk", s);
    AnyInOne("pod camera", s);
    AnyInThree("park", "playground", "garden", s);
    AnyInOne("viaduct", s);
    CategoryFromStep(groups, s, 0);
    CategoryFromStep(groups, s, 1);
    CategoryFromStep(groups, s, 2);
    CategoryFromStep(groups, s, 3);
    CategoryFromStep(groups, s, 4);
    CategoryFromStep(groups, s, 5);
    CategoryFromStep(groups, s, 6);
    CategoryFromStep(groups, s, 7);
    CategoryFromStep(groups, s, 8);
    CategoryFromStep(groups, s, 9);
    CategoryFromStep(groups, s, 10);
    CategoryFromStep(groups, s, 11);
    CategoryFromStep(groups, s, 12);
  }

  lemma {:induction false} CategoryFromStep(groups: seq<(string, seq<string>)>, s: string, i: nat)
    ensures CategoryFrom(groups, s, i) ==
      if i >= |groups| then "Misc." else if AnyIn(groups[i].1, s) then groups[i].0 else CategoryFrom(groups, s, i + 1)
  {
  }

  // ---------------------------------------------------------------------------------
  // Properties of the classifier

  /** The labels of the table are distinct, and none is "Misc.". */
  lemma {:induction false} LabelsDistinct(groups: seq<(string, seq<string>)>)
    requires groups == MenuGroups()
    ensures forall j | 0 <= j < |groups| :: groups[j].0 != "Misc."
    ensures forall j, k | 0 <= j < k < |groups| :: groups[j].0 != groups[k].0
  {
  }

  /** "Misc." exactly when no keyword of any group occurs in the lower-cased item. */
  lemma {:induction false} MiscIffNoKeyword(item: string)
    ensures GetMenuCategory(item) == "Misc." <==>
      forall j | 0 <= j < |MenuGroups()| :: !AnyIn(MenuGroups()[j].1, Lower(item))
  {
    var groups, s := MenuGroups(), Lower(item);
    ChainIsTable(item);
    LabelsDistinct(groups);
    if forall j | 0 <= j < |groups| :: !AnyIn(groups[j].1, s) {
      CategoryFromNone(groups, s, 0);
    } else {
      CategoryFromHit(groups, s, 0);
    }
  }

  /**
   * The item gets the label of group k exactly when a keyword of group k occurs in the
   * lower-cased item and no keyword of an earlier group does: the first group wins.
   */
  lemma {:induction false} FirstGroupWins(item: string, k: nat)
    requires k < |MenuGroups()|
    ensures GetMenuCategory(item) == MenuGroups()[k].0 <==>
      AnyIn(MenuGroups()[k].1, Lower(item)) && forall j | 0 <= j < k :: !AnyIn(MenuGroups()[j].1, Lower(item))
  {
    var groups, s := MenuGroups(), Lower(item);
    ChainIsTable(item);
    LabelsDistinct(groups);
    if AnyIn(groups[k].1, s) && forall j | 0 <= j < k :: !AnyIn(groups[j].1, s) {
      CategoryFromFirst(groups, s, 0, k);
    } else if forall j | 0 <= j < |groups| :: !AnyIn(groups[j].1, s) {
      CategoryFromNone(groups, s, 0);
    } else {
      CategoryFromHit(groups, s, 0);
    }
  }

  /** The classification does not depend on letter case. */
  lemma {:induction false} CaseInsensitive(item: string)
    ensures GetMenuCategory(Lower(item)) == GetMenuCategory(item)
  {
    LowerIdempotent(item);
  }

  /** "park lighting" names a park but reaches the lighting group first. */
  lemma {:induction false} ParkLighting(k: string)
    requires k == "park lighting"
    ensures Contains(k, "park") && GetMenuCategory(k) == "Lighting"
  {
    LowerFixed(k);
    ParkLightingHits(k);
    ParkLightingMisses(k);
  }

  lemma {:induction false} ParkLightingHits(k: string)
    requires k == "park lighting"
    ensures Contains(k, "park") && Contains(k, "light")
  {
    ContainsJoin("", "park", " lighting");
    ContainsJoin("park ", "light", "ing");
    assert k == "" + "park" + " lighting" == "park " + "light" + "ing";
  }

  lemma {:induction false} ParkLightingMisses(k: string)
    requires k == "park lighting"
    ensures !Contains(k, "pedestrian") && !Contains(k, "bump outs")
    ensures !Contains(k, "bicycle") && !Contains(k, "bike") && !Contains(k, "neighborhood greenway")
  {
    assert forall i | 0 <= i < |k| :: k[i] != 'd' && k[i] != 'b' && k[i] != 'e' && k[i] != 'y';
    NotContainsAt(k, "pedestrian", 'd', 2);
    NotContainsAt(k, "bump outs", 'b', 0);
    NotContainsAt(k, "bicycle", 'b', 0);
    NotContainsAt(k, "bike", 'b', 0);
    NotContainsAt(k, "neighborhood greenway", 'e', 1);
  }

  /** "diagnol parking" names a park too, but the street-redesign group comes before the parks. */
  lemma {:induction false} DiagnolParking(k: string)
    requires k == "diagnol parking"
    ensures Contains(k, "park") && GetMenuCategory(k) == "Street Redesign"
  {
    DiagnolParkingKey(k);
    ContainsJoin("diagnol ", "park", "ing");
    assert k == "diagnol " + "park" + "ing";
  }


  // ---------------------------------------------------------------------------------
  // STANDARD_CATEGORY

  /** `STANDARD_CATEGORY`: every keyword of the chain with the label of its group. */
  function StandardCategory(): map<string, string> {
    map["pedestrian" := "Pedestrian Infrastructure",
     "bump outs" := "Pedestrian Infrastructure",
     "bicycle" := "Bicycle Infrastructure",
     "bike" := "Bicycle Infrastructure",
     "neighborhood greenway" := "Bicycle Infrastructure",
     "light" := "Lighting",
     "street resurfacing" := "Street Resurfacing",
     "street speed hump replacement" := "Street Resurfacing",
     "curb & gutter" := "Street Resurfacing",
     "alley" := "Alleys",
     "miscellaneous cdot projects" := "Misc. CDOT",
     "mural" := "Beautification",
     "public art" := "Beautification",
     "tree planting" := "Beautification",
     "turn arrow" := "Street Redesign",
     "street speed hump menu" := "Street Redesign",
     "pavement markings" := "Street Redesign",
     "traffic circle" := "Street Redesign",
     "cul-de-sac" := "Street Redesign",
     "diagnol parking" := "Street Redesign",
     "sidewalk" := "Sidewalk Repair",
     "pod camera" := "Police Cameras",
     "park" := "Parks",
     "playground" := "Parks",
     "garden" := "Parks",
     "viaduct" := "Viaducts"]
  }

  /** Classifying any key of `STANDARD_CATEGORY` gives the label the map records for it. */
  lemma {:induction false} StandardCategoryAgrees()
    ensures forall k | k in StandardCategory() :: GetMenuCategory(k) == StandardCategory()[k]
  {
    forall k | k in StandardCategory() ensures GetMenuCategory(k) == StandardCategory()[k] {
      StandardKeys(k);
      if k == "pedestrian" ||
          k == "bump outs" ||
          k == "bicycle" ||
          k == "bike" ||
          k == "neighborhood greenway" ||
          k == "light" ||
          k == "street resurfacing" ||
          k == "street speed hump replacement" ||
          k == "curb & gutter" ||
          k == "alley" ||
          k == "miscellaneous cdot projects" ||
          k == "mural" ||
          k == "public art" {
        StandardCategoryAgreesFirst(k);
      } else {
        StandardCategoryAgreesSecond(k);
      }
    }
  }

  /** The keys of `STANDARD_CATEGORY`, one by one. */
  lemma {:induction false} StandardKeys(k: string)
    requires k in StandardCategory()
    ensures k == "pedestrian" ||
      k == "bump outs" ||
      k == "bicycle" ||
      k == "bike" ||
      k == "neighborhood greenway" ||
      k == "light" ||
      k == "street resurfacing" ||
      k == "street speed hump replacement" ||
      k == "curb & gutter" ||
      k == "alley" ||
      k == "miscellaneous cdot projects" ||
      k == "mural" ||
      k == "public art" ||
      k == "tree planting" ||
      k == "turn arrow" ||
      k == "street speed hump menu" ||
      k == "pavement markings" ||
      k == "traffic circle" ||
      k == "cul-de-sac" ||
      k == "diagnol parking" ||
      k == "sidewalk" ||
      k == "pod camera" ||
      k == "park" ||
      k == "playground" ||
      k == "garden" ||
      k == "viaduct"
  {
  }

  lemma {:induction false} StandardCategoryAgreesFirst(k: string)
    requires k == "pedestrian" ||
      k == "bump outs" ||
      k == "bicycle" ||
      k == "bike" ||
      k == "neighborhood greenway" ||
      k == "light" ||
      k == "street resurfacing" ||
      k == "street speed hump replacement" ||
      k == "curb & gutter" ||
      k == "alley" ||
      k == "miscellaneous cdot projects" ||
      k == "mural" ||
      k == "public art"
    ensures k in StandardCategory() && GetMenuCategory(k) == StandardCategory()[k]
  {
    if k == "pedestrian" {
      PedestrianKey(k);
      PedestrianLookup(k);
    } else if k == "bump outs" {
      BumpOutsKey(k);
      BumpOutsLookup(k);
    } else if k == "bicycle" {
      BicycleKey(k);
      BicycleLookup(k);
    } else if k == "bike" {
      BikeKey(k);
      BikeLookup(k);
    } else if k == "neighborhood greenway" {
      NeighborhoodGreenwayKey(k);
      NeighborhoodGreenwayLookup(k);
    } else if k == "light" {
      LightKey(k);
      LightLookup(k);
    } else if k == "street resurfacing" {
      StreetResurfacingKey(k);
      StreetResurfacingLookup(k);
    } else if k == "street speed hump replacement" {
      StreetSpeedHumpReplacementKey(k);
      StreetSpeedHumpReplacementLookup(k);
    } else if k == "curb & gutter" {
      CurbGutterKey(k);
      CurbGutterLookup(k);
    } else if k == "alley" {
      AlleyKey(k);
      AlleyLookup(k);
    } else if k == "miscellaneous cdot projects" {
      MiscellaneousCdotProjectsKey(k);
      MiscellaneousCdotProjectsLookup(k);
    } else if k == "mural" {
      MuralKey(k);
      MuralLookup(k);
    } else {
      PublicArtKey(k);
      PublicArtLookup(k);
    }
  }

  lemma {:induction false} StandardCategoryAgreesSecond(k: string)
    requires k == "tree planting" ||
      k == "turn arrow" ||
      k == "street speed hump menu" ||
      k == "pavement markings" ||
      k == "traffic circle" ||
      k == "cul-de-sac" ||
      k == "diagnol parking" ||
      k == "sidewalk" ||
      k == "pod camera" ||
      k == "park" ||
      k == "playground" ||
      k == "garden" ||
      k == "viaduct"
    ensures k in StandardCategory() && GetMenuCategory(k) == StandardCategory()[k]
  {
    if k == "tree planting" {
      TreePlantingKey(k);
      TreePlantingLookup(k);
    } else if k == "turn arrow" {
      TurnArrowKey(k);
      TurnArrowLookup(k);
    } else if k == "street speed hump menu" {
      StreetSpeedHumpMenuKey(k);
      StreetSpeedHumpMenuLookup(k);
    } else if k == "pavement markings" {
      PavementMarkingsKey(k);
      PavementMarkingsLookup(k);
    } else if k == "traffic circle" {
      TrafficCircleKey(k);
      TrafficCircleLookup(k);
    } else if k == "cul-de-sac" {
      CulDeSacKey(k);
      CulDeSacLookup(k);
    } else if k == "diagnol parking" {
      DiagnolParkingKey(k);
      DiagnolParkingLookup(k);
    } else if k == "sidewalk" {
      SidewalkKey(k);
      SidewalkLookup(k);
    } else if k == "pod camera" {
      PodCameraKey(k);
      PodCameraLookup(k);
    } else if k == "park" {
      ParkKey(k);
      ParkLookup(k);
    } else if k == "playground" {
      PlaygroundKey(k);
      PlaygroundLookup(k);
    } else if k == "garden" {
      GardenKey(k);
      GardenLookup(k);
    } else {
      ViaductKey(k);
      ViaductLookup(k);
    }
  }

  // Each key of the map records the label of its group.

  lemma {:induction false} PedestrianLookup(k: string)
    requires k == "pedestrian"
    ensures k in StandardCategory() && StandardCategory()[k] == "Pedestrian Infrastructure"
  {
  }

  lemma {:induction false} BumpOutsLookup(k: string)
    requires k == "bump outs"
    ensures k in StandardCategory() && StandardCategory()[k] == "Pedestrian Infrastructure"
  {
  }

  lemma {:induction false} BicycleLookup(k: string)
    requires k == "bicycle"
    ensures k in StandardCategory() && StandardCategory()[k] == "Bicycle Infrastructure"
  {
  }

  lemma {:induction false} BikeLookup(k: string)
    requires k == "bike"
    ensures k in StandardCategory() && StandardCategory()[k] == "Bicycle Infrastructure"
  {
  }

  lemma {:induction false} NeighborhoodGreenwayLookup(k: string)
    requires k == "neighborhood greenway"
    ensures k in StandardCategory() && StandardCategory()[k] == "Bicycle Infrastructure"
  {
  }

  lemma {:induction false} LightLookup(k: string)
    requires k == "light"
    ensures k in StandardCategory() && StandardCategory()[k] == "Lighting"
  {
  }

  lemma {:induction false} StreetResurfacingLookup(k: string)
    requires k == "street resurfacing"
    ensures k in StandardCategory() && StandardCategory()[k] == "Street Resurfacing"
  {
  }

  lemma {:induction false} StreetSpeedHumpReplacementLookup(k: string)
    requires k == "street speed hump replacement"
    ensures k in StandardCategory() && StandardCategory()[k] == "Street Resurfacing"
  {
  }

  lemma {:induction false} CurbGutterLookup(k: string)
    requires k == "curb & gutter"
    ensures k in StandardCategory() && StandardCategory()[k] == "Street Resurfacing"
  {
  }

  lemma {:induction false} AlleyLookup(k: string)
    requires k == "alley"
    ensures k in StandardCategory() && StandardCategory()[k] == "Alleys"
  {
  }

  lemma {:induction false} MiscellaneousCdotProjectsLookup(k: string)
    requires k == "miscellaneous cdot projects"
    ensures k in StandardCategory() && StandardCategory()[k] == "Misc. CDOT"
  {
  }

  lemma {:induction false} MuralLookup(k: string)
    requires k == "mural"
    ensures k in StandardCategory() && StandardCategory()[k] == "Beautification"
  {
  }

  lemma {:induction false} PublicArtLookup(k: string)
    requires k == "public art"
    ensures k in StandardCategory() && StandardCategory()[k] == "Beautification"
  {
  }

  lemma {:induction false} TreePlantingLookup(k: string)
    requires k == "tree planting"
    ensures k in StandardCategory() && StandardCategory()[k] == "Beautification"
  {
  }

  lemma {:induction false} TurnArrowLookup(k: string)
    requires k == "turn arrow"
    ensures k in StandardCategory() && StandardCategory()[k] == "Street Redesign"
  {
  }

  lemma {:induction false} StreetSpeedHumpMenuLookup(k: string)
    requires k == "street speed hump menu"
    ensures k in StandardCategory() && StandardCategory()[k] == "Street Redesign"
  {
  }

  lemma {:induction false} PavementMarkingsLookup(k: string)
    requires k == "pavement markings"
    ensures k in StandardCategory() && StandardCategory()[k] == "Street Redesign"
  {
  }

  lemma {:induction false} TrafficCircleLookup(k: string)
    requires k == "traffic circle"
    ensures k in StandardCategory() && StandardCategory()[k] == "Street Redesign"
  {
  }

  lemma {:induction false} CulDeSacLookup(k: string)
    requires k == "cul-de-sac"
    ensures k in StandardCategory() && StandardCategory()[k] == "Street Redesign"
  {
  }

  lemma {:induction false} DiagnolParkingLookup(k: string)
    requires k == "diagnol parking"
    ensures k in StandardCategory() && StandardCategory()[k] == "Street Redesign"
  {
  }

  lemma {:induction false} SidewalkLookup(k: string)
    requires k == "sidewalk"
    ensures k in StandardCategory() && StandardCategory()[k] == "Sidewalk Repair"
  {
  }

  lemma {:induction false} PodCameraLookup(k: string)
    requires k == "pod camera"
    ensures k in StandardCategory() && StandardCategory()[k] == "Police Cameras"
  {
  }

  lemma {:induction false} ParkLookup(k: string)
    requires k == "park"
    ensures k in StandardCategory() && StandardCategory()[k] == "Parks"
  {
  }

  lemma {:induction false} PlaygroundLookup(k: string)
    requires k == "playground"
    ensures k in StandardCategory() && StandardCategory()[k] == "Parks"
  {
  }

  lemma {:induction false} GardenLookup(k: string)
    requires k == "garden"
    ensures k in StandardCategory() && StandardCategory()[k] == "Parks"
  {
  }

  lemma {:induction false} ViaductLookup(k: string)
    requires k == "viaduct"
    ensures k in StandardCategory() && StandardCategory()[k] == "Viaducts"
  {
  }

  // Each keyword, classified on its own, reaches its own group: no keyword of an earlier
  // group occurs in it.

  lemma {:induction false} PedestrianKey(k: string)
    requires k == "pedestrian"
    ensures GetMenuCategory(k) == "Pedestrian Infrastructure"
  {
    LowerFixed(k);
    ContainsSelf(k);
  }

  lemma {:induction false} BumpOutsKey(k: string)
    requires k == "bump outs"
    ensures GetMenuCategory(k) == "Pedestrian Infrastructure"
  {
    LowerFixed(k);
    ContainsSelf(k);
  }

  lemma {:induction false} BicycleKey(k: string)
    requires k == "bicycle"
    ensures GetMenuCategory(k) == "Bicycle Infrastructure"
  {
    LowerFixed(k);
    ContainsSelf(k);
    BicycleMisses();
  }

  lemma {:induction false} BicycleMisses()
    ensures !Contains("bicycle", "pedestrian")
    ensures !Contains("bicycle", "bump outs")
  {
    var s := "bicycle";
    assert forall k | 0 <= k < |s| :: s[k] != 'n' && s[k] != 's';
    NotContainsAt(s, "pedestrian", 'n', 9);
    NotContainsAt(s, "bump outs", 's', 8);
  }

  lemma {:induction false} BikeMisses()
    ensures !Contains("bike", "pedestrian")
    ensures !Contains("bike", "bump outs")
  {
    var s := "bike";
    assert forall k | 0 <= k < |s| :: s[k] != 'n' && s[k] != 's';
    NotContainsAt(s, "pedestrian", 'n', 9);
    NotContainsAt(s, "bump outs", 's', 8);
  }

  lemma {:induction false} NeighborhoodGreenwayMisses()
    ensures !Contains("neighborhood greenway", "pedestrian")
    ensures !Contains("neighborhood greenway", "bump outs")
  {
    var s := "neighborhood greenway";
    assert forall k | 0 <= k < |s| :: s[k] != 't' && s[k] != 's';
    NotContainsAt(s, "pedestrian", 't', 5);
    NotContainsAt(s, "bump outs", 's', 8);
  }

  lemma {:induction false} LightMisses()
    ensures !Contains("light", "pedestrian")
    ensures !Contains("light", "bump outs")
    ensures !Contains("light", "bicycle")
    ensures !Contains("light", "bike")
    ensures !Contains("light", "neighborhood greenway")
  {
    var s := "light";
    assert forall k | 0 <= k < |s| :: s[k] != 'n' && s[k] != 's' && s[k] != 'e' && s[k] != 'y';
    NotContainsAt(s, "pedestrian", 'n', 9);
    NotContainsAt(s, "bump outs", 's', 8);
    NotContainsAt(s, "bicycle", 'e', 6);
    NotContainsAt(s, "bike", 'e', 3);
    NotContainsAt(s, "neighborhood greenway", 'y', 20);
  }

  lemma {:induction false} StreetResurfacingMisses()
    ensures !Contains("street resurfacing", "pedestrian")
    ensures !Contains("street resurfacing", "bump outs")
    ensures !Contains("street resurfacing", "bicycle")
    ensures !Contains("street resurfacing", "bike")
    ensures !Contains("street resurfacing", "neighborhood greenway")
    ensures !Contains("street resurfacing", "light")
  {
    var s := "street resurfacing";
    assert forall k | 0 <= k < |s| :: s[k] != 'd' && s[k] != 'o' && s[k] != 'l' && s[k] != 'k' && s[k] != 'y' && s[k] != 'h';
    NotContainsAt(s, "pedestrian", 'd', 2);
    NotContainsAt(s, "bump outs", 'o', 5);
    NotContainsAt(s, "bicycle", 'l', 5);
    NotContainsAt(s, "bike", 'k', 2);
    NotContainsAt(s, "neighborhood greenway", 'y', 20);
    NotContainsAt(s, "light", 'h', 3);
  }

  lemma {:induction false} StreetSpeedHumpReplacementMisses()
    ensures !Contains("street speed hump replacement", "pedestrian")
    ensures !Contains("street speed hump replacement", "bump outs")
    ensures !Contains("street speed hump replacement", "bicycle")
    ensures !Contains("street speed hump replacement", "bike")
    ensures !Contains("street speed hump replacement", "neighborhood greenway")
    ensures !Contains("street speed hump replacement", "light")
  {
    var s := "street speed hump replacement";
    assert forall k | 0 <= k < |s| :: s[k] != 'i' && s[k] != 'o' && s[k] != 'y' && s[k] != 'k' && s[k] != 'g';
    NotContainsAt(s, "pedestrian", 'i', 7);
    NotContainsAt(s, "bump outs", 'o', 5);
    NotContainsAt(s, "bicycle", 'y', 3);
    NotContainsAt(s, "bike", 'k', 2);
    NotContainsAt(s, "neighborhood greenway", 'y', 20);
    NotContainsAt(s, "light", 'g', 2);
  }

  lemma {:induction false} CurbGutterMisses()
    ensures !Contains("curb & gutter", "pedestrian")
    ensures !Contains("curb & gutter", "bump outs")
    ensures !Contains("curb & gutter", "bicycle")
    ensures !Contains("curb & gutter", "bike")
    ensures !Contains("curb & gutter", "neighborhood greenway")
    ensures !Contains("curb & gutter", "light")
  {
    var s := "curb & gutter";
    assert forall k | 0 <= k < |s| :: s[k] != 'n' && s[k] != 's' && s[k] != 'l' && s[k] != 'k' && s[k] != 'y' && s[k] != 'h';
    NotContainsAt(s, "pedestrian", 'n', 9);
    NotContainsAt(s, "bump outs", 's', 8);
    NotContainsAt(s, "bicycle", 'l', 5);
    NotContainsAt(s, "bike", 'k', 2);
    NotContainsAt(s, "neighborhood greenway", 'y', 20);
    NotContainsAt(s, "light", 'h', 3);
  }

  lemma {:induction false} AlleyMisses1()
    ensures !Contains("alley", "pedestrian")
    ensures !Contains("alley", "bump outs")
    ensures !Contains("alley", "bicycle")
    ensures !Contains("alley", "bike")
    ensures !Contains("alley", "neighborhood greenway")
  {
    var s := "alley";
    assert forall k | 0 <= k < |s| :: s[k] != 'n' && s[k] != 's' && s[k] != 'c' && s[k] != 'k' && s[k] != 'w';
    NotContainsAt(s, "pedestrian", 'n', 9);
    NotContainsAt(s, "bump outs", 's', 8);
    NotContainsAt(s, "bicycle", 'c', 4);
    NotContainsAt(s, "bike", 'k', 2);
    NotContainsAt(s, "neighborhood greenway", 'w', 18);
  }

  lemma {:induction false} AlleyMisses2()
    ensures !Contains("alley", "light")
    ensures !Contains("alley", "street resurfacing")
    ensures !Contains("alley", "street speed hump replacement")
    ensures !Contains("alley", "curb & gutter")
  {
    var s := "alley";
    assert forall k | 0 <= k < |s| :: s[k] != 't' && s[k] != 'g' && s[k] != 'r';
    NotContainsAt(s, "light", 't', 4);
    NotContainsAt(s, "street resurfacing", 'g', 17);
    NotContainsAt(s, "street speed hump replacement", 't', 28);
    NotContainsAt(s, "curb & gutter", 'r', 12);
  }

  lemma {:induction false} MiscellaneousCdotProjectsMisses1()
    ensures !Contains("miscellaneous cdot projects", "pedestrian")
    ensures !Contains("miscellaneous cdot projects", "bump outs")
    ensures !Contains("miscellaneous cdot projects", "bicycle")
    ensures !Contains("miscellaneous cdot projects", "bike")
    ensures !Contains("miscellaneous cdot projects", "neighborhood greenway")
  {
    var s := "miscellaneous cdot projects";
    assert forall k | 0 <= k < |s| :: s[k] != 'b' && s[k] != 'y' && s[k] != 'k';
    assert "miscellaneous cdot projects" == "miscellaneous cdot " + "projects";
    NotContainsLate("miscellaneous cdot ", "projects", "pedestrian");
    NotContainsAt(s, "bump outs", 'b', 0);
    NotContainsAt(s, "bicycle", 'y', 3);
    NotContainsAt(s, "bike", 'k', 2);
    NotContainsAt(s, "neighborhood greenway", 'y', 20);
  }

  lemma {:induction false} MiscellaneousCdotProjectsMisses2()
    ensures !Contains("miscellaneous cdot projects", "light")
    ensures !Contains("miscellaneous cdot projects", "street resurfacing")
    ensures !Contains("miscellaneous cdot projects", "street speed hump replacement")
    ensures !Contains("miscellaneous cdot projects", "curb & gutter")
    ensures !Contains("miscellaneous cdot projects", "alley")
  {
    var s := "miscellaneous cdot projects";
    assert forall k | 0 <= k < |s| :: s[k] != 'h' && s[k] != 'g' && s[k] != 'y';
    NotContainsAt(s, "light", 'h', 3);
    NotContainsAt(s, "street resurfacing", 'g', 17);
    NotContainsAt(s, "street speed hump replacement", 'h', 13);
    NotContainsAt(s, "curb & gutter", 'g', 7);
    NotContainsAt(s, "alley", 'y', 4);
  }

  lemma {:induction false} MuralMisses1()
    ensures !Contains("mural", "pedestrian")
    ensures !Contains("mural", "bump outs")
    ensures !Contains("mural", "bicycle")
    ensures !Contains("mural", "bike")
    ensures !Contains("mural", "neighborhood greenway")
    ensures !Contains("mural", "light")
  {
    var s := "mural";
    assert forall k | 0 <= k < |s| :: s[k] != 'n' && s[k] != 's' && s[k] != 'e' && s[k] != 'y' && s[k] != 't';
    NotContainsAt(s, "pedestrian", 'n', 9);
    NotContainsAt(s, "bump outs", 's', 8);
    NotContainsAt(s, "bicycle", 'e', 6);
    NotContainsAt(s, "bike", 'e', 3);
    NotContainsAt(s, "neighborhood greenway", 'y', 20);
    NotContainsAt(s, "light", 't', 4);
  }

  lemma {:induction false} MuralMisses2()
    ensures !Contains("mural", "street resurfacing")
    ensures !Contains("mural", "street speed hump replacement")
    ensures !Contains("mural", "curb & gutter")
    ensures !Contains("mural", "alley")
    ensures !Contains("mural", "miscellaneous cdot projects")
  {
    var s := "mural";
    assert forall k | 0 <= k < |s| :: s[k] != 'g' && s[k] != 't' && s[k] != 'e' && s[k] != 'y' && s[k] != 's';
    NotContainsAt(s, "street resurfacing", 'g', 17);
    NotContainsAt(s, "street speed hump replacement", 't', 28);
    NotContainsAt(s, "curb & gutter", 'e', 11);
    NotContainsAt(s, "alley", 'y', 4);
    NotContainsAt(s, "miscellaneous cdot projects", 's', 26);
  }

  lemma {:induction false} PublicArtMisses1()
    ensures !Contains("public art", "pedestrian")
    ensures !Contains("public art", "bump outs")
    ensures !Contains("public art", "bicycle")
    ensures !Contains("public art", "bike")
    ensures !Contains("public art", "neighborhood greenway")
    ensures !Contains("public art", "light")
  {
    var s := "public art";
    assert forall k | 0 <= k < |s| :: s[k] != 'n' && s[k] != 's' && s[k] != 'e' && s[k] != 'y' && s[k] != 'h';
    NotContainsAt(s, "pedestrian", 'n', 9);
    NotContainsAt(s, "bump outs", 's', 8);
    NotContainsAt(s, "bicycle", 'e', 6);
    NotContainsAt(s, "bike", 'e', 3);
    NotContainsAt(s, "neighborhood greenway", 'y', 20);
    NotContainsAt(s, "light", 'h', 3);
  }

  lemma {:induction false} PublicArtMisses2()
    ensures !Contains("public art", "street resurfacing")
    ensures !Contains("public art", "street speed hump replacement")
    ensures !Contains("public art", "curb & gutter")
    ensures !Contains("public art", "alley")
    ensures !Contains("public art", "miscellaneous cdot projects")
  {
    var s := "public art";
    assert forall k | 0 <= k < |s| :: s[k] != 'g' && s[k] != 'n' && s[k] != 'e' && s[k] != 'y' && s[k] != 's';
    NotContainsAt(s, "street resurfacing", 'g', 17);
    NotContainsAt(s, "street speed hump replacement", 'n', 27);
    NotContainsAt(s, "curb & gutter", 'e', 11);
    NotContainsAt(s, "alley", 'y', 4);
    NotContainsAt(s, "miscellaneous cdot projects", 's', 26);
  }

  lemma {:induction false} TreePlantingMisses1()
    ensures !Contains("tree planting", "pedestrian")
    ensures !Contains("tree planting", "bump outs")
    ensures !Contains("tree planting", "bicycle")
    ensures !Contains("tree planting", "bike")
    ensures !Contains("tree planting", "neighborhood greenway")
    ensures !Contains("tree planting", "light")
  {
    var s := "tree planting";
    assert forall k | 0 <= k < |s| :: s[k] != 's' && s[k] != 'c' && s[k] != 'k' && s[k] != 'y' && s[k] != 'h';
    NotContainsAt(s, "pedestrian", 's', 4);
    NotContainsAt(s, "bump outs", 's', 8);
    NotContainsAt(s, "bicycle", 'c', 4);
    NotContainsAt(s, "bike", 'k', 2);
    NotContainsAt(s, "neighborhood greenway", 'y', 20);
    NotContainsAt(s, "light", 'h', 3);
  }

  lemma {:induction false} TreePlantingMisses2()
    ensures !Contains("tree planting", "street resurfacing")
    ensures !Contains("tree planting", "street speed hump replacement")
    ensures !Contains("tree planting", "curb & gutter")
    ensures !Contains("tree planting", "alley")
    ensures !Contains("tree planting", "miscellaneous cdot projects")
  {
    var s := "tree planting";
    assert forall k | 0 <= k < |s| :: s[k] != 'c' && s[k] != 'm' && s[k] != 'u' && s[k] != 'y' && s[k] != 's';
    NotContainsAt(s, "street resurfacing", 'c', 14);
    NotContainsAt(s, "street speed hump replacement", 'm', 25);
    NotContainsAt(s, "curb & gutter", 'u', 8);
    NotContainsAt(s, "alley", 'y', 4);
    NotContainsAt(s, "miscellaneous cdot projects", 's', 26);
  }

  lemma {:induction false} TurnArrowMisses1()
    ensures !Contains("turn arrow", "pedestrian")
    ensures !Contains("turn arrow", "bump outs")
    ensures !Contains("turn arrow", "bicycle")
    ensures !Contains("turn arrow", "bike")
    ensures !Contains("turn arrow", "neighborhood greenway")
  {
    var s := "turn arrow";
    assert forall k | 0 <= k < |s| :: s[k] != 'i' && s[k] != 's' && s[k] != 'e' && s[k] != 'y';
    NotContainsAt(s, "pedestrian", 'i', 7);
    NotContainsAt(s, "bump outs", 's', 8);
    NotContainsAt(s, "bicycle", 'e', 6);
    NotContainsAt(s, "bike", 'e', 3);
    NotContainsAt(s, "neighborhood greenway", 'y', 20);
  }

  lemma {:induction false} TurnArrowMisses2()
    ensures !Contains("turn arrow", "light")
    ensures !Contains("turn arrow", "street resurfacing")
    ensures !Contains("turn arrow", "street speed hump replacement")
    ensures !Contains("turn arrow", "curb & gutter")
    ensures !Contains("turn arrow", "alley")
  {
    var s := "turn arrow";
    assert forall k | 0 <= k < |s| :: s[k] != 'h' && s[k] != 'g' && s[k] != 'e' && s[k] != 'y';
    NotContainsAt(s, "light", 'h', 3);
    NotContainsAt(s, "street resurfacing", 'g', 17);
    NotContainsAt(s, "street speed hump replacement", 'e', 26);
    NotContainsAt(s, "curb & gutter", 'e', 11);
    NotContainsAt(s, "alley", 'y', 4);
  }

  lemma {:induction false} TurnArrowMisses3()
    ensures !Contains("turn arrow", "miscellaneous cdot projects")
    ensures !Contains("turn arrow", "mural")
    ensures !Contains("turn arrow", "public art")
    ensures !Contains("turn arrow", "tree planting")
  {
    var s := "turn arrow";
    assert forall k | 0 <= k < |s| :: s[k] != 's' && s[k] != 'l' && s[k] != 'c' && s[k] != 'g';
    NotContainsAt(s, "miscellaneous cdot projects", 's', 26);
    NotContainsAt(s, "mural", 'l', 4);
    NotContainsAt(s, "public art", 'c', 5);
    NotContainsAt(s, "tree planting", 'g', 12);
  }

  lemma {:induction false} StreetSpeedHumpMenuMisses1()
    ensures !Contains("street speed hump menu", "pedestrian")
    ensures !Contains("street speed hump menu", "bump outs")
    ensures !Contains("street speed hump menu", "bicycle")
    ensures !Contains("street speed hump menu", "bike")
    ensures !Contains("street speed hump menu", "neighborhood greenway")
  {
    var s := "street speed hump menu";
    assert forall k | 0 <= k < |s| :: s[k] != 'a' && s[k] != 'o' && s[k] != 'l' && s[k] != 'k' && s[k] != 'y';
    NotContainsAt(s, "pedestrian", 'a', 8);
    NotContainsAt(s, "bump outs", 'o', 5);
    NotContainsAt(s, "bicycle", 'l', 5);
    NotContainsAt(s, "bike", 'k', 2);
    NotContainsAt(s, "neighborhood greenway", 'y', 20);
  }

  lemma {:induction false} StreetSpeedHumpMenuMisses2()
    ensures !Contains("street speed hump menu", "light")
    ensures !Contains("street speed hump menu", "street resurfacing")
    ensures !Contains("street speed hump menu", "street speed hump replacement")
    ensures !Contains("street speed hump menu", "curb & gutter")
    ensures !Contains("street speed hump menu", "alley")
  {
    var s := "street speed hump menu";
    assert forall k | 0 <= k < |s| :: s[k] != 'g' && s[k] != 'c' && s[k] != 'y';
    NotContainsAt(s, "light", 'g', 2);
    NotContainsAt(s, "street resurfacing", 'g', 17);
    NotContainsAt(s, "street speed hump replacement", 'c', 23);
    NotContainsAt(s, "curb & gutter", 'g', 7);
    NotContainsAt(s, "alley", 'y', 4);
  }

  lemma {:induction false} StreetSpeedHumpMenuMisses3()
    ensures !Contains("street speed hump menu", "miscellaneous cdot projects")
    ensures !Contains("street speed hump menu", "mural")
    ensures !Contains("street speed hump menu", "public art")
    ensures !Contains("street speed hump menu", "tree planting")
  {
    var s := "street speed hump menu";
    assert forall k | 0 <= k < |s| :: s[k] != 'c' && s[k] != 'l' && s[k] != 'a' && s[k] != 'g';
    NotContainsAt(s, "miscellaneous cdot projects", 'c', 24);
    NotContainsAt(s, "mural", 'l', 4);
    NotContainsAt(s, "public art", 'a', 7);
    NotContainsAt(s, "tree planting", 'g', 12);
  }

  lemma {:induction false} PavementMarkingsMisses1()
    ensures !Contains("pavement markings", "pedestrian")
    ensures !Contains("pavement markings", "bump outs")
    ensures !Contains("pavement markings", "bicycle")
    ensures !Contains("pavement markings", "bike")
    ensures !Contains("pavement markings", "neighborhood greenway")
  {
    var s := "pavement markings";
    assert forall k | 0 <= k < |s| :: s[k] != 'd' && s[k] != 'u' && s[k] != 'l' && s[k] != 'b' && s[k] != 'y';
    NotContainsAt(s, "pedestrian", 'd', 2);
    NotContainsAt(s, "bump outs", 'u', 6);
    NotContainsAt(s, "bicycle", 'l', 5);
    NotContainsAt(s, "bike", 'b', 0);
    NotContainsAt(s, "neighborhood greenway", 'y', 20);
  }

  lemma {:induction false} PavementMarkingsMisses2()
    ensures !Contains("pavement markings", "light")
    ensures !Contains("pavement markings", "street resurfacing")
    ensures !Contains("pavement markings", "street speed hump replacement")
    ensures !Contains("pavement markings", "curb & gutter")
    ensures !Contains("pavement markings", "alley")
  {
    var s := "pavement markings";
    assert forall k | 0 <= k < |s| :: s[k] != 'h' && s[k] != 'c' && s[k] != 'u' && s[k] != 'y';
    NotContainsAt(s, "light", 'h', 3);
    NotContainsAt(s, "street resurfacing", 'c', 14);
    NotContainsAt(s, "street speed hump replacement", 'c', 23);
    NotContainsAt(s, "curb & gutter", 'u', 8);
    NotContainsAt(s, "alley", 'y', 4);
  }

  lemma {:induction false} PavementMarkingsMisses3()
    ensures !Contains("pavement markings", "miscellaneous cdot projects")
    ensures !Contains("pavement markings", "mural")
    ensures !Contains("pavement markings", "public art")
    ensures !Contains("pavement markings", "tree planting")
  {
    var s := "pavement markings";
    assert forall k | 0 <= k < |s| :: s[k] != 'c' && s[k] != 'l';
    NotContainsAt(s, "miscellaneous cdot projects", 'c', 24);
    NotContainsAt(s, "mural", 'l', 4);
    NotContainsAt(s, "public art", 'c', 5);
    NotContainsAt(s, "tree planting", 'l', 6);
  }

  lemma {:induction false} TrafficCircleMisses1()
    ensures !Contains("traffic circle", "pedestrian")
    ensures !Contains("traffic circle", "bump outs")
    ensures !Contains("traffic circle", "bicycle")
    ensures !Contains("traffic circle", "bike")
    ensures !Contains("traffic circle", "neighborhood greenway")
  {
    var s := "traffic circle";
    assert forall k | 0 <= k < |s| :: s[k] != 'n' && s[k] != 's' && s[k] != 'y' && s[k] != 'k';
    NotContainsAt(s, "pedestrian", 'n', 9);
    NotContainsAt(s, "bump outs", 's', 8);
    NotContainsAt(s, "bicycle", 'y', 3);
    NotContainsAt(s, "bike", 'k', 2);
    NotContainsAt(s, "neighborhood greenway", 'y', 20);
  }

  lemma {:induction false} TrafficCircleMisses2()
    ensures !Contains("traffic circle", "light")
    ensures !Contains("traffic circle", "street resurfacing")
    ensures !Contains("traffic circle", "street speed hump replacement")
    ensures !Contains("traffic circle", "curb & gutter")
    ensures !Contains("traffic circle", "alley")
  {
    var s := "traffic circle";
    assert forall k | 0 <= k < |s| :: s[k] != 'h' && s[k] != 'g' && s[k] != 'n' && s[k] != 'u' && s[k] != 'y';
    NotContainsAt(s, "light", 'h', 3);
    NotContainsAt(s, "street resurfacing", 'g', 17);
    NotContainsAt(s, "street speed hump replacement", 'n', 27);
    NotContainsAt(s, "curb & gutter", 'u', 8);
    NotContainsAt(s, "alley", 'y', 4);
  }

  lemma {:induction false} TrafficCircleMisses3()
    ensures !Contains("traffic circle", "miscellaneous cdot projects")
    ensures !Contains("traffic circle", "mural")
    ensures !Contains("traffic circle", "public art")
    ensures !Contains("traffic circle", "tree planting")
  {
    var s := "traffic circle";
    assert forall k | 0 <= k < |s| :: s[k] != 's' && s[k] != 'u' && s[k] != 'b' && s[k] != 'g';
    NotContainsAt(s, "miscellaneous cdot projects", 's', 26);
    NotContainsAt(s, "mural", 'u', 1);
    NotContainsAt(s, "public art", 'b', 2);
    NotContainsAt(s, "tree planting", 'g', 12);
  }

  lemma {:induction false} CulDeSacMisses1()
    ensures !Contains("cul-de-sac", "pedestrian")
    ensures !Contains("cul-de-sac", "bump outs")
    ensures !Contains("cul-de-sac", "bicycle")
    ensures !Contains("cul-de-sac", "bike")
    ensures !Contains("cul-de-sac", "neighborhood greenway")
  {
    var s := "cul-de-sac";
    assert forall k | 0 <= k < |s| :: s[k] != 'n' && s[k] != 't' && s[k] != 'y' && s[k] != 'k';
    NotContainsAt(s, "pedestrian", 'n', 9);
    NotContainsAt(s, "bump outs", 't', 7);
    NotContainsAt(s, "bicycle", 'y', 3);
    NotContainsAt(s, "bike", 'k', 2);
    NotContainsAt(s, "neighborhood greenway", 'y', 20);
  }

  lemma {:induction false} CulDeSacMisses2()
    ensures !Contains("cul-de-sac", "light")
    ensures !Contains("cul-de-sac", "street resurfacing")
    ensures !Contains("cul-de-sac", "street speed hump replacement")
    ensures !Contains("cul-de-sac", "curb & gutter")
    ensures !Contains("cul-de-sac", "alley")
  {
    var s := "cul-de-sac";
    assert forall k | 0 <= k < |s| :: s[k] != 't' && s[k] != 'g' && s[k] != 'r' && s[k] != 'y';
    NotContainsAt(s, "light", 't', 4);
    NotContainsAt(s, "street resurfacing", 'g', 17);
    NotContainsAt(s, "street speed hump replacement", 't', 28);
    NotContainsAt(s, "curb & gutter", 'r', 12);
    NotContainsAt(s, "alley", 'y', 4);
  }

  lemma {:induction false} CulDeSacMisses3()
    ensures !Contains("cul-de-sac", "miscellaneous cdot projects")
    ensures !Contains("cul-de-sac", "mural")
    ensures !Contains("cul-de-sac", "public art")
    ensures !Contains("cul-de-sac", "tree planting")
  {
    var s := "cul-de-sac";
    assert forall k | 0 <= k < |s| :: s[k] != 't' && s[k] != 'r' && s[k] != 'g';
    NotContainsAt(s, "miscellaneous cdot projects", 't', 25);
    NotContainsAt(s, "mural", 'r', 2);
    NotContainsAt(s, "public art", 't', 9);
    NotContainsAt(s, "tree planting", 'g', 12);
  }

  lemma {:induction false} DiagnolParkingMisses1()
    ensures !Contains("diagnol parking", "pedestrian")
    ensures !Contains("diagnol parking", "bump outs")
    ensures !Contains("diagnol parking", "bicycle")
    ensures !Contains("diagnol parking", "bike")
    ensures !Contains("diagnol parking", "neighborhood greenway")
  {
    var s := "diagnol parking";
    assert forall k | 0 <= k < |s| :: s[k] != 't' && s[k] != 's' && s[k] != 'e' && s[k] != 'y';
    NotContainsAt(s, "pedestrian", 't', 5);
    NotContainsAt(s, "bump outs", 's', 8);
    NotContainsAt(s, "bicycle", 'e', 6);
    NotContainsAt(s, "bike", 'e', 3);
    NotContainsAt(s, "neighborhood greenway", 'y', 20);
  }

  lemma {:induction false} DiagnolParkingMisses2()
    ensures !Contains("diagnol parking", "light")
    ensures !Contains("diagnol parking", "street resurfacing")
    ensures !Contains("diagnol parking", "street speed hump replacement")
    ensures !Contains("diagnol parking", "curb & gutter")
    ensures !Contains("diagnol parking", "alley")
  {
    var s := "diagnol parking";
    assert forall k | 0 <= k < |s| :: s[k] != 't' && s[k] != 'c' && s[k] != 'e' && s[k] != 'y';
    NotContainsAt(s, "light", 't', 4);
    NotContainsAt(s, "street resurfacing", 'c', 14);
    NotContainsAt(s, "street speed hump replacement", 't', 28);
    NotContainsAt(s, "curb & gutter", 'e', 11);
    NotContainsAt(s, "alley", 'y', 4);
  }

  lemma {:induction false} DiagnolParkingMisses3()
    ensures !Contains("diagnol parking", "miscellaneous cdot projects")
    ensures !Contains("diagnol parking", "mural")
    ensures !Contains("diagnol parking", "public art")
    ensures !Contains("diagnol parking", "tree planting")
  {
    var s := "diagnol parking";
    assert forall k | 0 <= k < |s| :: s[k] != 's' && s[k] != 'u' && s[k] != 't';
    NotContainsAt(s, "miscellaneous cdot projects", 's', 26);
    NotContainsAt(s, "mural", 'u', 1);
    NotContainsAt(s, "public art", 't', 9);
    NotContainsAt(s, "tree planting", 't', 9);
  }

  lemma {:induction false} SidewalkMisses1()
    ensures !Contains("sidewalk", "pedestrian")
    ensures !Contains("sidewalk", "bump outs")
    ensures !Contains("sidewalk", "bicycle")
    ensures !Contains("sidewalk", "bike")
    ensures !Contains("sidewalk", "neighborhood greenway")
  {
    var s := "sidewalk";
    assert forall k | 0 <= k < |s| :: s[k] != 'n' && s[k] != 't' && s[k] != 'c' && s[k] != 'b' && s[k] != 'y';
    NotContainsAt(s, "pedestrian", 'n', 9);
    NotContainsAt(s, "bump outs", 't', 7);
    NotContainsAt(s, "bicycle", 'c', 4);
    NotContainsAt(s, "bike", 'b', 0);
    NotContainsAt(s, "neighborhood greenway", 'y', 20);
  }

  lemma {:induction false} SidewalkMisses2()
    ensures !Contains("sidewalk", "light")
    ensures !Contains("sidewalk", "street resurfacing")
    ensures !Contains("sidewalk", "street speed hump replacement")
    ensures !Contains("sidewalk", "curb & gutter")
    ensures !Contains("sidewalk", "alley")
  {
    var s := "sidewalk";
    assert forall k | 0 <= k < |s| :: s[k] != 't' && s[k] != 'g' && s[k] != 'r' && s[k] != 'y';
    NotContainsAt(s, "light", 't', 4);
    NotContainsAt(s, "street resurfacing", 'g', 17);
    NotContainsAt(s, "street speed hump replacement", 't', 28);
    NotContainsAt(s, "curb & gutter", 'r', 12);
    NotContainsAt(s, "alley", 'y', 4);
  }

  lemma {:induction false} SidewalkMisses3()
    ensures !Contains("sidewalk", "miscellaneous cdot projects")
    ensures !Contains("sidewalk", "mural")
    ensures !Contains("sidewalk", "public art")
    ensures !Contains("sidewalk", "tree planting")
    ensures !Contains("sidewalk", "turn arrow")
  {
    var s := "sidewalk";
    assert forall k | 0 <= k < |s| :: s[k] != 't' && s[k] != 'r' && s[k] != 'g' && s[k] != 'o';
    NotContainsAt(s, "miscellaneous cdot projects", 't', 25);
    NotContainsAt(s, "mural", 'r', 2);
    NotContainsAt(s, "public art", 't', 9);
    NotContainsAt(s, "tree planting", 'g', 12);
    NotContainsAt(s, "turn arrow", 'o', 8);
  }

  lemma {:induction false} SidewalkMisses4()
    ensures !Contains("sidewalk", "street speed hump menu")
    ensures !Contains("sidewalk", "pavement markings")
    ensures !Contains("sidewalk", "traffic circle")
    ensures !Contains("sidewalk", "cul-de-sac")
    ensures !Contains("sidewalk", "diagnol parking")
  {
    var s := "sidewalk";
    assert forall k | 0 <= k < |s| :: s[k] != 'u' && s[k] != 'g' && s[k] != 'c';
    NotContainsAt(s, "street speed hump menu", 'u', 21);
    NotContainsAt(s, "pavement markings", 'g', 15);
    NotContainsAt(s, "traffic circle", 'c', 11);
    NotContainsAt(s, "cul-de-sac", 'c', 9);
    NotContainsAt(s, "diagnol parking", 'g', 14);
  }

  lemma {:induction false} PodCameraMisses1()
    ensures !Contains("pod camera", "pedestrian")
    ensures !Contains("pod camera", "bump outs")
    ensures !Contains("pod camera", "bicycle")
    ensures !Contains("pod camera", "bike")
    ensures !Contains("pod camera", "neighborhood greenway")
    ensures !Contains("pod camera", "light")
  {
    var s := "pod camera";
    assert forall k | 0 <= k < |s| :: s[k] != 'n' && s[k] != 's' && s[k] != 'l' && s[k] != 'k' && s[k] != 'y' && s[k] != 't';
    NotContainsAt(s, "pedestrian", 'n', 9);
    NotContainsAt(s, "bump outs", 's', 8);
    NotContainsAt(s, "bicycle", 'l', 5);
    NotContainsAt(s, "bike", 'k', 2);
    NotContainsAt(s, "neighborhood greenway", 'y', 20);
    NotContainsAt(s, "light", 't', 4);
  }

  lemma {:induction false} PodCameraMisses2()
    ensures !Contains("pod camera", "street resurfacing")
    ensures !Contains("pod camera", "street speed hump replacement")
    ensures !Contains("pod camera", "curb & gutter")
    ensures !Contains("pod camera", "alley")
    ensures !Contains("pod camera", "miscellaneous cdot projects")
    ensures !Contains("pod camera", "mural")
  {
    var s := "pod camera";
    assert forall k | 0 <= k < |s| :: s[k] != 'g' && s[k] != 't' && s[k] != 'y' && s[k] != 's' && s[k] != 'l';
    NotContainsAt(s, "street resurfacing", 'g', 17);
    NotContainsAt(s, "street speed hump replacement", 't', 28);
    NotContainsAt(s, "curb & gutter", 't', 10);
    NotContainsAt(s, "alley", 'y', 4);
    NotContainsAt(s, "miscellaneous cdot projects", 's', 26);
    NotContainsAt(s, "mural", 'l', 4);
  }

  lemma {:induction false} PodCameraMisses3()
    ensures !Contains("pod camera", "public art")
    ensures !Contains("pod camera", "tree planting")
    ensures !Contains("pod camera", "turn arrow")
    ensures !Contains("pod camera", "street speed hump menu")
    ensures !Contains("pod camera", "pavement markings")
    ensures !Contains("pod camera", "traffic circle")
  {
    var s := "pod camera";
    assert forall k | 0 <= k < |s| :: s[k] != 't' && s[k] != 'g' && s[k] != 'w' && s[k] != 'u' && s[k] != 's' && s[k] != 'l';
    NotContainsAt(s, "public art", 't', 9);
    NotContainsAt(s, "tree planting", 'g', 12);
    NotContainsAt(s, "turn arrow", 'w', 9);
    NotContainsAt(s, "street speed hump menu", 'u', 21);
    NotContainsAt(s, "pavement markings", 's', 16);
    NotContainsAt(s, "traffic circle", 'l', 12);
  }

  lemma {:induction false} PodCameraMisses4()
    ensures !Contains("pod camera", "cul-de-sac")
    ensures !Contains("pod camera", "diagnol parking")
    ensures !Contains("pod camera", "sidewalk")
  {
    var s := "pod camera";
    assert forall k | 0 <= k < |s| :: s[k] != 's' && s[k] != 'g' && s[k] != 'k';
    NotContainsAt(s, "cul-de-sac", 's', 7);
    NotContainsAt(s, "diagnol parking", 'g', 14);
    NotContainsAt(s, "sidewalk", 'k', 7);
  }

  lemma {:induction false} ParkMisses1()
    ensures !Contains("park", "pedestrian")
    ensures !Contains("park", "bump outs")
    ensures !Contains("park", "bicycle")
    ensures !Contains("park", "bike")
    ensures !Contains("park", "neighborhood greenway")
    ensures !Contains("park", "light")
  {
    var s := "park";
    assert forall k | 0 <= k < |s| :: s[k] != 'n' && s[k] != 's' && s[k] != 'e' && s[k] != 'y' && s[k] != 't';
    NotContainsAt(s, "pedestrian", 'n', 9);
    NotContainsAt(s, "bump outs", 's', 8);
    NotContainsAt(s, "bicycle", 'e', 6);
    NotContainsAt(s, "bike", 'e', 3);
    NotContainsAt(s, "neighborhood greenway", 'y', 20);
    NotContainsAt(s, "light", 't', 4);
  }

  lemma {:induction false} ParkMisses2()
    ensures !Contains("park", "street resurfacing")
    ensures !Contains("park", "street speed hump replacement")
    ensures !Contains("park", "curb & gutter")
    ensures !Contains("park", "alley")
    ensures !Contains("park", "miscellaneous cdot projects")
    ensures !Contains("park", "mural")
  {
    var s := "park";
    assert forall k | 0 <= k < |s| :: s[k] != 'g' && s[k] != 't' && s[k] != 'e' && s[k] != 'y' && s[k] != 's' && s[k] != 'l';
    NotContainsAt(s, "street resurfacing", 'g', 17);
    NotContainsAt(s, "street speed hump replacement", 't', 28);
    NotContainsAt(s, "curb & gutter", 'e', 11);
    NotContainsAt(s, "alley", 'y', 4);
    NotContainsAt(s, "miscellaneous cdot projects", 's', 26);
    NotContainsAt(s, "mural", 'l', 4);
  }

  lemma {:induction false} ParkMisses3()
    ensures !Contains("park", "public art")
    ensures !Contains("park", "tree planting")
    ensures !Contains("park", "turn arrow")
    ensures !Contains("park", "street speed hump menu")
    ensures !Contains("park", "pavement markings")
    ensures !Contains("park", "traffic circle")
  {
    var s := "park";
    assert forall k | 0 <= k < |s| :: s[k] != 't' && s[k] != 'g' && s[k] != 'w' && s[k] != 'u' && s[k] != 's' && s[k] != 'e';
    NotContainsAt(s, "public art", 't', 9);
    NotContainsAt(s, "tree planting", 'g', 12);
    NotContainsAt(s, "turn arrow", 'w', 9);
    NotContainsAt(s, "street speed hump menu", 'u', 21);
    NotContainsAt(s, "pavement markings", 's', 16);
    NotContainsAt(s, "traffic circle", 'e', 13);
  }

  lemma {:induction false} ParkMisses4()
    ensures !Contains("park", "cul-de-sac")
    ensures !Contains("park", "diagnol parking")
    ensures !Contains("park", "sidewalk")
    ensures !Contains("park", "pod camera")
  {
    var s := "park";
    assert forall k | 0 <= k < |s| :: s[k] != 'c' && s[k] != 'g' && s[k] != 'l' && s[k] != 'e';
    NotContainsAt(s, "cul-de-sac", 'c', 9);
    NotContainsAt(s, "diagnol parking", 'g', 14);
    NotContainsAt(s, "sidewalk", 'l', 6);
    NotContainsAt(s, "pod camera", 'e', 7);
  }

  lemma {:induction false} PlaygroundMisses1()
    ensures !Contains("playground", "pedestrian")
    ensures !Contains("playground", "bump outs")
    ensures !Contains("playground", "bicycle")
    ensures !Contains("playground", "bike")
    ensures !Contains("playground", "neighborhood greenway")
    ensures !Contains("playground", "light")
  {
    var s := "playground";
    assert forall k | 0 <= k < |s| :: s[k] != 'i' && s[k] != 's' && s[k] != 'e' && s[k] != 'w' && s[k] != 't';
    NotContainsAt(s, "pedestrian", 'i', 7);
    NotContainsAt(s, "bump outs", 's', 8);
    NotContainsAt(s, "bicycle", 'e', 6);
    NotContainsAt(s, "bike", 'e', 3);
    NotContainsAt(s, "neighborhood greenway", 'w', 18);
    NotContainsAt(s, "light", 't', 4);
  }

  lemma {:induction false} PlaygroundMisses2()
    ensures !Contains("playground", "street resurfacing")
    ensures !Contains("playground", "street speed hump replacement")
    ensures !Contains("playground", "curb & gutter")
    ensures !Contains("playground", "alley")
    ensures !Contains("playground", "miscellaneous cdot projects")
    ensures !Contains("playground", "mural")
  {
    var s := "playground";
    assert forall k | 0 <= k < |s| :: s[k] != 'i' && s[k] != 't' && s[k] != 'e' && s[k] != 's' && s[k] != 'm';
    NotContainsAt(s, "street resurfacing", 'i', 15);
    NotContainsAt(s, "street speed hump replacement", 't', 28);
    NotContainsAt(s, "curb & gutter", 'e', 11);
    NotContainsAt(s, "alley", 'e', 3);
    NotContainsAt(s, "miscellaneous cdot projects", 's', 26);
    NotContainsAt(s, "mural", 'm', 0);
  }

  lemma {:induction false} PlaygroundMisses3()
    ensures !Contains("playground", "public art")
    ensures !Contains("playground", "tree planting")
    ensures !Contains("playground", "turn arrow")
    ensures !Contains("playground", "street speed hump menu")
    ensures !Contains("playground", "pavement markings")
    ensures !Contains("playground", "traffic circle")
  {
    var s := "playground";
    assert forall k | 0 <= k < |s| :: s[k] != 't' && s[k] != 'i' && s[k] != 'w' && s[k] != 'e' && s[k] != 's';
    NotContainsAt(s, "public art", 't', 9);
    NotContainsAt(s, "tree planting", 'i', 10);
    NotContainsAt(s, "turn arrow", 'w', 9);
    NotContainsAt(s, "street speed hump menu", 'e', 19);
    NotContainsAt(s, "pavement markings", 's', 16);
    NotContainsAt(s, "traffic circle", 'e', 13);
  }

  lemma {:induction false} PlaygroundMisses4()
    ensures !Contains("playground", "cul-de-sac")
    ensures !Contains("playground", "diagnol parking")
    ensures !Contains("playground", "sidewalk")
    ensures !Contains("playground", "pod camera")
  {
    var s := "playground";
    assert forall k | 0 <= k < |s| :: s[k] != 'c' && s[k] != 'i' && s[k] != 'k' && s[k] != 'e';
    NotContainsAt(s, "cul-de-sac", 'c', 9);
    NotContainsAt(s, "diagnol parking", 'i', 12);
    NotContainsAt(s, "sidewalk", 'k', 7);
    NotContainsAt(s, "pod camera", 'e', 7);
  }

  lemma {:induction false} GardenMisses1()
    ensures !Contains("garden", "pedestrian")
    ensures !Contains("garden", "bump outs")
    ensures !Contains("garden", "bicycle")
    ensures !Contains("garden", "bike")
    ensures !Contains("garden", "neighborhood greenway")
    ensures !Contains("garden", "light")
  {
    var s := "garden";
    assert forall k | 0 <= k < |s| :: s[k] != 'i' && s[k] != 's' && s[k] != 'l' && s[k] != 'k' && s[k] != 'y' && s[k] != 't';
    NotContainsAt(s, "pedestrian", 'i', 7);
    NotContainsAt(s, "bump outs", 's', 8);
    NotContainsAt(s, "bicycle", 'l', 5);
    NotContainsAt(s, "bike", 'k', 2);
    NotContainsAt(s, "neighborhood greenway", 'y', 20);
    NotContainsAt(s, "light", 't', 4);
  }

  lemma {:induction false} GardenMisses2()
    ensures !Contains("garden", "street resurfacing")
    ensures !Contains("garden", "street speed hump replacement")
    ensures !Contains("garden", "curb & gutter")
    ensures !Contains("garden", "alley")
    ensures !Contains("garden", "miscellaneous cdot projects")
    ensures !Contains("garden", "mural")
  {
    var s := "garden";
    assert forall k | 0 <= k < |s| :: s[k] != 'i' && s[k] != 't' && s[k] != 'y' && s[k] != 's' && s[k] != 'l';
    NotContainsAt(s, "street resurfacing", 'i', 15);
    NotContainsAt(s, "street speed hump replacement", 't', 28);
    NotContainsAt(s, "curb & gutter", 't', 10);
    NotContainsAt(s, "alley", 'y', 4);
    NotContainsAt(s, "miscellaneous cdot projects", 's', 26);
    NotContainsAt(s, "mural", 'l', 4);
  }

  lemma {:induction false} GardenMisses3()
    ensures !Contains("garden", "public art")
    ensures !Contains("garden", "tree planting")
    ensures !Contains("garden", "turn arrow")
    ensures !Contains("garden", "street speed hump menu")
    ensures !Contains("garden", "pavement markings")
    ensures !Contains("garden", "traffic circle")
  {
    var s := "garden";
    assert forall k | 0 <= k < |s| :: s[k] != 't' && s[k] != 'i' && s[k] != 'w' && s[k] != 'u' && s[k] != 's' && s[k] != 'l';
    NotContainsAt(s, "public art", 't', 9);
    NotContainsAt(s, "tree planting", 'i', 10);
    NotContainsAt(s, "turn arrow", 'w', 9);
    NotContainsAt(s, "street speed hump menu", 'u', 21);
    NotContainsAt(s, "pavement markings", 's', 16);
    NotContainsAt(s, "traffic circle", 'l', 12);
  }

  lemma {:induction false} GardenMisses4()
    ensures !Contains("garden", "cul-de-sac")
    ensures !Contains("garden", "diagnol parking")
    ensures !Contains("garden", "sidewalk")
    ensures !Contains("garden", "pod camera")
  {
    var s := "garden";
    assert forall k | 0 <= k < |s| :: s[k] != 'c' && s[k] != 'i' && s[k] != 'k' && s[k] != 'm';
    NotContainsAt(s, "cul-de-sac", 'c', 9);
    NotContainsAt(s, "diagnol parking", 'i', 12);
    NotContainsAt(s, "sidewalk", 'k', 7);
    NotContainsAt(s, "pod camera", 'm', 6);
  }

  lemma {:induction false} ViaductMisses1()
    ensures !Contains("viaduct", "pedestrian")
    ensures !Contains("viaduct", "bump outs")
    ensures !Contains("viaduct", "bicycle")
    ensures !Contains("viaduct", "bike")
    ensures !Contains("viaduct", "neighborhood greenway")
  {
    var s := "viaduct";
    assert forall k | 0 <= k < |s| :: s[k] != 'n' && s[k] != 's' && s[k] != 'e' && s[k] != 'y';
    NotContainsAt(s, "pedestrian", 'n', 9);
    NotContainsAt(s, "bump outs", 's', 8);
    NotContainsAt(s, "bicycle", 'e', 6);
    NotContainsAt(s, "bike", 'e', 3);
    NotContainsAt(s, "neighborhood greenway", 'y', 20);
  }

  lemma {:induction false} ViaductMisses2()
    ensures !Contains("viaduct", "light")
    ensures !Contains("viaduct", "street resurfacing")
    ensures !Contains("viaduct", "street speed hump replacement")
    ensures !Contains("viaduct", "curb & gutter")
    ensures !Contains("viaduct", "alley")
  {
    var s := "viaduct";
    assert forall k | 0 <= k < |s| :: s[k] != 'h' && s[k] != 'g' && s[k] != 'n' && s[k] != 'r' && s[k] != 'y';
    NotContainsAt(s, "light", 'h', 3);
    NotContainsAt(s, "street resurfacing", 'g', 17);
    NotContainsAt(s, "street speed hump replacement", 'n', 27);
    NotContainsAt(s, "curb & gutter", 'r', 12);
    NotContainsAt(s, "alley", 'y', 4);
  }

  lemma {:induction false} ViaductMisses3()
    ensures !Contains("viaduct", "miscellaneous cdot projects")
    ensures !Contains("viaduct", "mural")
    ensures !Contains("viaduct", "public art")
    ensures !Contains("viaduct", "tree planting")
    ensures !Contains("viaduct", "turn arrow")
  {
    var s := "viaduct";
    assert forall k | 0 <= k < |s| :: s[k] != 's' && s[k] != 'l' && s[k] != 'r' && s[k] != 'g' && s[k] != 'w';
    NotContainsAt(s, "miscellaneous cdot projects", 's', 26);
    NotContainsAt(s, "mural", 'l', 4);
    NotContainsAt(s, "public art", 'r', 8);
    NotContainsAt(s, "tree planting", 'g', 12);
    NotContainsAt(s, "turn arrow", 'w', 9);
  }

  lemma {:induction false} ViaductMisses4()
    ensures !Contains("viaduct", "street speed hump menu")
    ensures !Contains("viaduct", "pavement markings")
    ensures !Contains("viaduct", "traffic circle")
    ensures !Contains("viaduct", "cul-de-sac")
    ensures !Contains("viaduct", "diagnol parking")
  {
    var s := "viaduct";
    assert forall k | 0 <= k < |s| :: s[k] != 'n' && s[k] != 's' && s[k] != 'e' && s[k] != 'g';
    NotContainsAt(s, "street speed hump menu", 'n', 20);
    NotContainsAt(s, "pavement markings", 's', 16);
    NotContainsAt(s, "traffic circle", 'e', 13);
    NotContainsAt(s, "cul-de-sac", 's', 7);
    NotContainsAt(s, "diagnol parking", 'g', 14);
  }

  lemma {:induction false} ViaductMisses5()
    ensures !Contains("viaduct", "sidewalk")
    ensures !Contains("viaduct", "pod camera")
    ensures !Contains("viaduct", "park")
    ensures !Contains("viaduct", "playground")
    ensures !Contains("viaduct", "garden")
  {
    var s := "viaduct";
    assert forall k | 0 <= k < |s| :: s[k] != 'k' && s[k] != 'r' && s[k] != 'n';
    NotContainsAt(s, "sidewalk", 'k', 7);
    NotContainsAt(s, "pod camera", 'r', 8);
    NotContainsAt(s, "park", 'k', 3);
    NotContainsAt(s, "playground", 'n', 8);
    NotContainsAt(s, "garden", 'n', 5);
  }

  lemma {:induction false} BikeKey(k: string)
    requires k == "bike"
    ensures GetMenuCategory(k) == "Bicycle Infrastructure"
  {
    LowerFixed(k);
    ContainsSelf(k);
    BikeMisses();
  }

  lemma {:induction false} NeighborhoodGreenwayKey(k: string)
    requires k == "neighborhood greenway"
    ensures GetMenuCategory(k) == "Bicycle Infrastructure"
  {
    ContainsSelf(k);
    NeighborhoodGreenwayMisses();
    BicycleGroup(k);
    LowerFixed(k);
    LoweredCategory(k, k);
  }

  /** The category of an item is the chain's answer on its lower-cased text. */
  lemma {:induction false} LoweredCategory(item: string, s: string)
    requires Lower(item) == s
    ensures GetMenuCategory(item) == KeywordCategory(s)
  {
  }

  /** An item the first group misses and the second hits is Bicycle Infrastructure. */
  lemma {:induction false} BicycleGroup(s: string)
    requires !Contains(s, "pedestrian") && !Contains(s, "bump outs")
    requires Contains(s, "bicycle") || Contains(s, "bike") || Contains(s, "neighborhood greenway")
    ensures KeywordCategory(s) == "Bicycle Infrastructure"
  {
  }

  lemma {:induction false} LightKey(k: string)
    requires k == "light"
    ensures GetMenuCategory(k) == "Lighting"
  {
    LowerFixed(k);
    ContainsSelf(k);
    LightMisses();
  }

  lemma {:induction false} StreetResurfacingKey(k: string)
    requires k == "street resurfacing"
    ensures GetMenuCategory(k) == "Street Resurfacing"
  {
    ContainsSelf(k);
    StreetResurfacingMisses();
    ResurfacingGroup(k);
    LowerFixed(k);
    LoweredCategory(k, k);
  }

  lemma {:induction false} StreetSpeedHumpReplacementKey(k: string)
    requires k == "street speed hump replacement"
    ensures GetMenuCategory(k) == "Street Resurfacing"
  {
    ContainsSelf(k);
    StreetSpeedHumpReplacementMisses();
    ResurfacingGroup(k);
    LowerFixed(k);
    LoweredCategory(k, k);
  }

  lemma {:induction false} CurbGutterKey(k: string)
    requires k == "curb & gutter"
    ensures GetMenuCategory(k) == "Street Resurfacing"
  {
    ContainsSelf(k);
    CurbGutterMisses();
    ResurfacingGroup(k);
    LowerFixed(k);
    LoweredCategory(k, k);
  }

  /** An item the first three groups miss and the fourth hits is Street Resurfacing. */
  lemma {:induction false} ResurfacingGroup(s: string)
    requires !Contains(s, "pedestrian") && !Contains(s, "bump outs")
    requires !Contains(s, "bicycle") && !Contains(s, "bike") && !Contains(s, "neighborhood greenway")
    requires !Contains(s, "light")
    requires Contains(s, "street resurfacing") || Contains(s, "street speed hump replacement") || Contains(s, "curb & gutter")
    ensures KeywordCategory(s) == "Street Resurfacing"
  {
  }

  lemma {:induction false} AlleyKey(k: string)
    requires k == "alley"
    ensures GetMenuCategory(k) == "Alleys"
  {
    LowerFixed(k);
    ContainsSelf(k);
    AlleyMisses1();
    AlleyMisses2();
  }

  lemma {:induction false} MiscellaneousCdotProjectsKey(k: string)
    requires k == "miscellaneous cdot projects"
    ensures GetMenuCategory(k) == "Misc. CDOT"
  {
    LowerFixed(k);
    ContainsSelf(k);
    MiscellaneousCdotProjectsMisses1();
    MiscellaneousCdotProjectsMisses2();
  }

  lemma {:induction false} MuralKey(k: string)
    requires k == "mural"
    ensures GetMenuCategory(k) == "Beautification"
  {
    LowerFixed(k);
    ContainsSelf(k);
    MuralMisses1();
    MuralMisses2();
  }

  lemma {:induction false} PublicArtKey(k: string)
    requires k == "public art"
    ensures GetMenuCategory(k) == "Beautification"
  {
    LowerFixed(k);
    ContainsSelf(k);
    PublicArtMisses1();
    PublicArtMisses2();
  }

  lemma {:induction false} TreePlantingKey(k: string)
    requires k == "tree planting"
    ensures GetMenuCategory(k) == "Beautification"
  {
    LowerFixed(k);
    ContainsSelf(k);
    TreePlantingMisses1();
    TreePlantingMisses2();
  }

  lemma {:induction false} TurnArrowKey(k: string)
    requires k == "turn arrow"
    ensures GetMenuCategory(k) == "Street Redesign"
  {
    LowerFixed(k);
    ContainsSelf(k);
    TurnArrowMisses1();
    TurnArrowMisses2();
    TurnArrowMisses3();
  }

  lemma {:induction false} StreetSpeedHumpMenuKey(k: string)
    requires k == "street speed hump menu"
    ensures GetMenuCategory(k) == "Street Redesign"
  {
    LowerFixed(k);
    ContainsSelf(k);
    StreetSpeedHumpMenuMisses1();
    StreetSpeedHumpMenuMisses2();
    StreetSpeedHumpMenuMisses3();
  }

  lemma {:induction false} PavementMarkingsKey(k: string)
    requires k == "pavement markings"
    ensures GetMenuCategory(k) == "Street Redesign"
  {
    LowerFixed(k);
    ContainsSelf(k);
    PavementMarkingsMisses1();
    PavementMarkingsMisses2();
    PavementMarkingsMisses3();
  }

  lemma {:induction false} TrafficCircleKey(k: string)
    requires k == "traffic circle"
    ensures GetMenuCategory(k) == "Street Redesign"
  {
    LowerFixed(k);
    ContainsSelf(k);
    TrafficCircleMisses1();
    TrafficCircleMisses2();
    TrafficCircleMisses3();
  }

  lemma {:induction false} CulDeSacKey(k: string)
    requires k == "cul-de-sac"
    ensures GetMenuCategory(k) == "Street Redesign"
  {
    LowerFixed(k);
    ContainsSelf(k);
    CulDeSacMisses1();
    CulDeSacMisses2();
    CulDeSacMisses3();
  }

  lemma {:induction false} DiagnolParkingKey(k: string)
    requires k == "diagnol parking"
    ensures GetMenuCategory(k) == "Street Redesign"
  {
    LowerFixed(k);
    ContainsSelf(k);
    DiagnolParkingMisses1();
    DiagnolParkingMisses2();
    DiagnolParkingMisses3();
  }

  lemma {:induction false} SidewalkKey(k: string)
    requires k == "sidewalk"
    ensures GetMenuCategory(k) == "Sidewalk Repair"
  {
    LowerFixed(k);
    ContainsSelf(k);
    SidewalkMisses1();
    SidewalkMisses2();
    SidewalkMisses3();
    SidewalkMisses4();
  }

  lemma {:induction false} PodCameraKey(k: string)
    requires k == "pod camera"
    ensures GetMenuCategory(k) == "Police Cameras"
  {
    LowerFixed(k);
    ContainsSelf(k);
    PodCameraMisses1();
    PodCameraMisses2();
    PodCameraMisses3();
    PodCameraMisses4();
  }

  lemma {:induction false} ParkKey(k: string)
    requires k == "park"
    ensures GetMenuCategory(k) == "Parks"
  {
    LowerFixed(k);
    ContainsSelf(k);
    ParkMisses1();
    ParkMisses2();
    ParkMisses3();
    ParkMisses4();
  }

  lemma {:induction false} PlaygroundKey(k: string)
    requires k == "playground"
    ensures GetMenuCategory(k) == "Parks"
  {
    LowerFixed(k);
    ContainsSelf(k);
    PlaygroundMisses1();
    PlaygroundMisses2();
    PlaygroundMisses3();
    PlaygroundMisses4();
  }

  lemma {:induction false} GardenKey(k: string)
    requires k == "garden"
    ensures GetMenuCategory(k) == "Parks"
  {
    LowerFixed(k);
    ContainsSelf(k);
    GardenMisses1();
    GardenMisses2();
    GardenMisses3();
    GardenMisses4();
  }

  lemma {:induction false} ViaductKey(k: string)
    requires k == "viaduct"
    ensures GetMenuCategory(k) == "Viaducts"
  {
    LowerFixed(k);
    ContainsSelf(k);
    ViaductMisses1();
    ViaductMisses2();
    ViaductMisses3();
    ViaductMisses4();
    ViaductMisses5();
  }

}

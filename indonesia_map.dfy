/** The province map (src/components/IndonesiaMap.tsx): each drawn province
    path is matched by name, case-insensitively, against the province
    records; the match decides its fill colour, stroke width and shadow, and
    whether clicking or hovering it does anything. The GeoJSON paths and the
    projection that draws them are not modelled: a path is its name. */
module IndonesiaMap {
  import opened JsStrings
  import opened Options

  /** One entry of a province's `subsidies` object, in key order. */
  datatype Subsidy = Subsidy(key: string, name: string, total: int)

  /** The `Province` record the map and the dashboard share. */
  datatype Province = Province(id: int, name: string, region: string, subsidies: seq<Subsidy>)

  predicate NameMatches(p: Province, pathName: string) {
    ToLower(p.name) == ToLower(pathName)
  }

  /** The position of the first province whose name matches, or the length
      of the list when none does. */
  function FirstMatch(provinces: seq<Province>, pathName: string): (k: nat)
    ensures k <= |provinces|
    ensures forall j :: 0 <= j < k ==> !NameMatches(provinces[j], pathName)
    ensures k < |provinces| ==> NameMatches(provinces[k], pathName)
  {
    if provinces == [] || NameMatches(provinces[0], pathName) then 0
    else 1 + FirstMatch(provinces[1..], pathName)
  }

  /** `provinces.find(p => p.name.toLowerCase() === name.toLowerCase())`:
      the first matching province, or nothing exactly when none matches. */
  function FindByName(provinces: seq<Province>, pathName: string): (r: Option<Province>)
    ensures r.None? <==> forall k :: 0 <= k < |provinces| ==> !NameMatches(provinces[k], pathName)
    ensures r.Some? ==> r == Some(provinces[FirstMatch(provinces, pathName)])
  {
    var k := FirstMatch(provinces, pathName);
    if k < |provinces| then Some(provinces[k]) else None
  }

  const DefaultColor := "#6b7280"
  const SelectedColor := "#fbbf24"
  const HoverColor := "#f59e0b"
  const SelectedShadow := "drop-shadow(0 0 20px rgba(251, 191, 36, 0.8))"

  /** The seven-entry `regionColors` table, with the grey fallback. */
  function RegionColor(region: string): string {
    if region == "Jawa" then "#3b82f6"
    else if region == "Sumatera" then "#10b981"
    else if region == "Kalimantan" then "#8b5cf6"
    else if region == "Sulawesi" then "#f97316"
    else if region == "Nusa Tenggara" then "#ec4899"
    else if region == "Papua" then "#ef4444"
    else if region == "Maluku" then "#6366f1"
    else DefaultColor
  }

  /** No region is drawn in the selection or hover colour. */
  lemma RegionColorIsNotHighlight(region: string)
    ensures RegionColor(region) != SelectedColor && RegionColor(region) != HoverColor
  {
  }

  /** The colour `getProvinceColor` picks once the lookup is done. */
  function ColorFor(province: Option<Province>, selected: Option<int>, hovered: Option<int>): string {
    match province
    case None => DefaultColor
    case Some(p) =>
      if selected == Some(p.id) then SelectedColor
      else if hovered == Some(p.id) then HoverColor
      else RegionColor(p.region)
  }

  /** The width `getStrokeWidth` picks once the lookup is done. */
  function StrokeFor(province: Option<Province>, selected: Option<int>, hovered: Option<int>): string {
    match province
    case None => "1"
    case Some(p) =>
      if selected == Some(p.id) then "3"
      else if hovered == Some(p.id) then "2"
      else "1"
  }

  /** The filter `getFilter` picks once the lookup is done. */
  function FilterFor(province: Option<Province>, selected: Option<int>): string {
    match province
    case None => ""
    case Some(p) => if selected == Some(p.id) then SelectedShadow else ""
  }

  /** `getProvinceColor`. */
  function ProvinceColor(provinces: seq<Province>, selected: Option<int>, hovered: Option<int>, pathName: string): string {
    ColorFor(FindByName(provinces, pathName), selected, hovered)
  }

  /** `getStrokeWidth`. */
  function StrokeWidth(provinces: seq<Province>, selected: Option<int>, hovered: Option<int>, pathName: string): string {
    StrokeFor(FindByName(provinces, pathName), selected, hovered)
  }

  /** `getFilter`. */
  function Filter(provinces: seq<Province>, selected: Option<int>, pathName: string): string {
    FilterFor(FindByName(provinces, pathName), selected)
  }

  /** A path that names no province is grey, thin and unshadowed, whatever
      is selected or hovered. */
  lemma UnmatchedPathDefaults(provinces: seq<Province>, selected: Option<int>, hovered: Option<int>, pathName: string)
    requires forall k :: 0 <= k < |provinces| ==> !NameMatches(provinces[k], pathName)
    ensures ProvinceColor(provinces, selected, hovered, pathName) == "#6b7280"
    ensures StrokeWidth(provinces, selected, hovered, pathName) == "1"
    ensures Filter(provinces, selected, pathName) == ""
  {
  }

  /** Matching ignores case: two names that lower-case alike find the same
      province. */
  lemma {:induction false} MatchIgnoresCase(provinces: seq<Province>, a: string, b: string)
    requires ToLower(a) == ToLower(b)
    ensures FirstMatch(provinces, a) == FirstMatch(provinces, b)
    ensures FindByName(provinces, a) == FindByName(provinces, b)
  {
    if provinces != [] {
      assert NameMatches(provinces[0], a) == NameMatches(provinces[0], b);
      MatchIgnoresCase(provinces[1..], a, b);
    }
  }

  /** ... and so are styled alike. */
  lemma StylesIgnoreCase(provinces: seq<Province>, selected: Option<int>, hovered: Option<int>, a: string, b: string)
    requires ToLower(a) == ToLower(b)
    ensures ProvinceColor(provinces, selected, hovered, a) == ProvinceColor(provinces, selected, hovered, b)
    ensures StrokeWidth(provinces, selected, hovered, a) == StrokeWidth(provinces, selected, hovered, b)
    ensures Filter(provinces, selected, a) == Filter(provinces, selected, b)
  {
    MatchIgnoresCase(provinces, a, b);
  }

  /** The highlight ranking for the province a path names: selection beats
      hover, which beats the region colour, and the stroke follows. */
  lemma HighlightRanking(provinces: seq<Province>, selected: Option<int>, hovered: Option<int>, pathName: string, p: Province)
    requires FindByName(provinces, pathName) == Some(p)
    ensures selected == Some(p.id) ==>
      ProvinceColor(provinces, selected, hovered, pathName) == "#fbbf24" &&
      StrokeWidth(provinces, selected, hovered, pathName) == "3"
    ensures selected != Some(p.id) && hovered == Some(p.id) ==>
      ProvinceColor(provinces, selected, hovered, pathName) == "#f59e0b" &&
      StrokeWidth(provinces, selected, hovered, pathName) == "2"
    ensures selected != Some(p.id) && hovered != Some(p.id) ==>
      ProvinceColor(provinces, selected, hovered, pathName) == RegionColor(p.region) &&
      StrokeWidth(provinces, selected, hovered, pathName) == "1"
  {
  }

  /** Colour, stroke and shadow tell the same story: the stroke is 3 exactly
      when the fill is the selection colour, 2 exactly when it is the hover
      colour, and the shadow is drawn exactly for the selected province. */
  lemma StylesAgree(provinces: seq<Province>, selected: Option<int>, hovered: Option<int>, pathName: string)
    ensures StrokeWidth(provinces, selected, hovered, pathName) == "3" <==>
      ProvinceColor(provinces, selected, hovered, pathName) == SelectedColor
    ensures StrokeWidth(provinces, selected, hovered, pathName) == "2" <==>
      ProvinceColor(provinces, selected, hovered, pathName) == HoverColor
    ensures Filter(provinces, selected, pathName) != "" <==>
      ProvinceColor(provinces, selected, hovered, pathName) == SelectedColor
  {
    var found := FindByName(provinces, pathName);
    if found.Some? {
      RegionColorIsNotHighlight(found.value.region);
    }
  }

  /** The shadow is drawn exactly when the path names a province and that
      province is the selected one. */
  lemma FilterIff(provinces: seq<Province>, selected: Option<int>, pathName: string)
    ensures Filter(provinces, selected, pathName) != "" <==>
      FindByName(provinces, pathName).Some? && selected == Some(FindByName(provinces, pathName).value.id)
  {
  }

  /** What a click on a path reports to `onProvinceClick`: the matched
      province's id, or nothing. */
  function ClickTarget(provinces: seq<Province>, pathName: string): (r: Option<int>)
    ensures r.Some? <==> exists k :: 0 <= k < |provinces| && NameMatches(provinces[k], pathName)
    ensures r.Some? ==> r.value == provinces[FirstMatch(provinces, pathName)].id
  {
    match FindByName(provinces, pathName)
    case None => None
    case Some(p) => Some(p.id)
  }

  /** The component's own state: the hovered province. The provinces and the
      selection are props owned by the dashboard. */
  class MapView {
    var hoveredProvince: Option<int>

    constructor ()
      ensures hoveredProvince == None
    {
      hoveredProvince := None;
    }

    /** `onMouseEnter`: hover only a path that names a province. */
    method MouseEnter(provinces: seq<Province>, pathName: string)
      modifies this
      ensures hoveredProvince == (match FindByName(provinces, pathName)
        case Some(p) => Some(p.id)
        case None => old(hoveredProvince))
    {
      match FindByName(provinces, pathName) {
        case Some(p) => hoveredProvince := Some(p.id);
        case None =>
      }
    }

    /** `onMouseLeave`: always clear the hover. */
    method MouseLeave()
      modifies this
      ensures hoveredProvince == None
    {
      hoveredProvince := None;
    }
  }
}

/** The province dashboard (src/app/dashboard/page.tsx): a fixed table of
    eighteen provinces with four subsidy categories each, a selection that a
    click on the map toggles, the lookup of the selected province's record,
    and the sum of its category totals. */
module Dashboard {
  import opened Options
  import opened IndonesiaMap

  /** One row of `provincesData`; the four categories always carry the same
      names. */
  function Entry(id: int, name: string, region: string, a: int, b: int, c: int, d: int): Province {
    Province(id, name, region, [
      Subsidy("A", "Bantuan Pangan Non Tunai", a),
      Subsidy("B", "Program Keluarga Harapan", b),
      Subsidy("C", "Bantuan Sosial Tunai", c),
      Subsidy("D", "Kartu Indonesia Pintar", d)])
  }

  /** `provincesData`, in declaration order. */
  const ProvincesData: seq<Province> := [
    Entry(1, "DKI Jakarta", "Jawa", 125000000000, 89500000000, 67800000000, 45200000000),
    Entry(2, "Jawa Barat", "Jawa", 234000000000, 178300000000, 156700000000, 123400000000),
    Entry(3, "Jawa Tengah", "Jawa", 198500000000, 145600000000, 134200000000, 98700000000),
    Entry(4, "Jawa Timur", "Jawa", 267800000000, 189400000000, 167300000000, 134500000000),
    Entry(5, "Sumatera Utara", "Sumatera", 156700000000, 123400000000, 109800000000, 87600000000),
    Entry(6, "Sumatera Barat", "Sumatera", 87600000000, 67800000000, 56700000000, 43200000000),
    Entry(7, "Sumatera Selatan", "Sumatera", 98700000000, 76500000000, 65400000000, 52300000000),
    Entry(8, "Kalimantan Timur", "Kalimantan", 76500000000, 54300000000, 45600000000, 34500000000),
    Entry(9, "Kalimantan Selatan", "Kalimantan", 65400000000, 48700000000, 39800000000, 32100000000),
    Entry(10, "Kalimantan Barat", "Kalimantan", 54300000000, 41200000000, 34500000000, 27600000000),
    Entry(11, "Sulawesi Selatan", "Sulawesi", 109800000000, 87600000000, 73400000000, 58900000000),
    Entry(12, "Sulawesi Utara", "Sulawesi", 43200000000, 32100000000, 27600000000, 21800000000),
    Entry(13, "Bali", "Nusa Tenggara", 56700000000, 43200000000, 36500000000, 29800000000),
    Entry(14, "Nusa Tenggara Barat", "Nusa Tenggara", 67800000000, 52300000000, 43600000000, 35400000000),
    Entry(15, "Nusa Tenggara Timur", "Nusa Tenggara", 76500000000, 59800000000, 48700000000, 39200000000),
    Entry(16, "Papua", "Papua", 89500000000, 67800000000, 54300000000, 43600000000),
    Entry(17, "Papua Barat", "Papua", 43200000000, 32100000000, 26800000000, 21300000000),
    Entry(18, "Maluku", "Maluku", 34500000000, 26800000000, 21300000000, 17600000000)
  ]

  /** `handleProvinceClick`: clicking the selected province clears the
      selection, clicking any other selects it. */
  function Toggle(selected: Option<int>, provinceId: int): (r: Option<int>)
    ensures selected == Some(provinceId) ==> r == None
    ensures selected != Some(provinceId) ==> r == Some(provinceId)
  {
    if selected == Some(provinceId) then None else Some(provinceId)
  }

  /** Two clicks on the same province come back to where they started when
      that province was selected or nothing was; from another selection they
      end with nothing selected. */
  lemma ToggleTwice(selected: Option<int>, provinceId: int)
    ensures Toggle(Toggle(selected, provinceId), provinceId) ==
      (if selected == Some(provinceId) then selected else None)
  {
  }

  /** `provincesData.find(p => p.id === id)`. */
  function FindById(provinces: seq<Province>, provinceId: int): (r: Option<Province>)
    ensures r.None? <==> forall k :: 0 <= k < |provinces| ==> provinces[k].id != provinceId
    ensures r.Some? ==>
      exists k :: 0 <= k < |provinces| && provinces[k] == r.value &&
        forall j :: 0 <= j < k ==> provinces[j].id != provinceId
    ensures r.Some? ==> r.value.id == provinceId
  {
    if provinces == [] then None
    else if provinces[0].id == provinceId then Some(provinces[0])
    else
      var r := FindById(provinces[1..], provinceId);
      assert forall k :: 1 <= k < |provinces| ==> provinces[k] == provinces[1..][k - 1];
      r
  }

  /** `selectedProvinceData`: the guard is JavaScript truthiness, so a
      selected id of 0 shows nothing, like no selection at all. */
  function SelectedProvinceData(provinces: seq<Province>, selected: Option<int>): (r: Option<Province>)
    ensures selected.None? ==> r.None?
    ensures selected == Some(0) ==> r.None?
    ensures selected.Some? && selected.value != 0 ==> r == FindById(provinces, selected.value)
  {
    match selected
    case None => None
    case Some(provinceId) => if provinceId == 0 then None else FindById(provinces, provinceId)
  }

  /** The running sum `Object.values(subsidies).reduce((t, s) => t + s.total, 0)`. */
  function SumTotals(subsidies: seq<Subsidy>): int {
    if subsidies == [] then 0 else SumTotals(subsidies[..|subsidies| - 1]) + subsidies[|subsidies| - 1].total
  }

  /** `getTotalSubsidies`. */
  function TotalSubsidies(p: Province): int {
    SumTotals(p.subsidies)
  }

  /** The sum splits over concatenation. */
  lemma {:induction false} SumTotalsAppend(a: seq<Subsidy>, b: seq<Subsidy>)
    ensures SumTotals(a + b) == SumTotals(a) + SumTotals(b)
    decreases |b|
  {
    if b == [] {
      assert a + b == a;
    } else {
      assert (a + b)[..|a + b| - 1] == a + b[..|b| - 1];
      SumTotalsAppend(a, b[..|b| - 1]);
    }
  }

  /** For the four-category records the total is A + B + C + D. */
  lemma FourCategoryTotal(p: Province)
    requires |p.subsidies| == 4
    ensures TotalSubsidies(p) ==
      p.subsidies[0].total + p.subsidies[1].total + p.subsidies[2].total + p.subsidies[3].total
  {
    var s := p.subsidies;
    assert s[..4] == s;
    assert SumTotals(s[..1]) == s[0].total by { assert s[..1][..0] == []; }
    assert SumTotals(s[..2]) == SumTotals(s[..1]) + s[1].total by { assert s[..2][..1] == s[..1]; }
    assert SumTotals(s[..3]) == SumTotals(s[..2]) + s[2].total by { assert s[..3][..2] == s[..2]; }
    assert SumTotals(s) == SumTotals(s[..3]) + s[3].total;
  }

  /** With no negative category, the total is at least every single
      category's total. */
  lemma {:induction false} TotalBoundsEachCategory(subsidies: seq<Subsidy>, k: nat)
    requires forall j :: 0 <= j < |subsidies| ==> subsidies[j].total >= 0
    requires k < |subsidies|
    ensures SumTotals(subsidies) >= subsidies[k].total
  {
    var n := |subsidies|;
    var front := subsidies[..n - 1];
    assert forall j :: 0 <= j < |front| ==> front[j] == subsidies[j];
    if k < n - 1 {
      TotalBoundsEachCategory(front, k);
    } else {
      TotalsNonNegative(front);
    }
  }

  lemma {:induction false} TotalsNonNegative(subsidies: seq<Subsidy>)
    requires forall j :: 0 <= j < |subsidies| ==> subsidies[j].total >= 0
    ensures SumTotals(subsidies) >= 0
  {
    if subsidies != [] {
      var front := subsidies[..|subsidies| - 1];
      assert forall j :: 0 <= j < |front| ==> front[j] == subsidies[j];
      TotalsNonNegative(front);
    }
  }

  /** The table's shape: province k has id k + 1 and four categories keyed
      A to D, none negative. */
  lemma ProvincesDataShape()
    ensures |ProvincesData| == 18
    ensures forall k :: 0 <= k < 18 ==> ProvincesData[k].id == k + 1
    ensures forall k :: 0 <= k < 18 ==> |ProvincesData[k].subsidies| == 4
    ensures forall k, j :: 0 <= k < 18 && 0 <= j < 4 ==> ProvincesData[k].subsidies[j].total >= 0
  {
  }

  /** Every province of the table lies in a region that has its own colour
      on the map. */
  lemma ProvincesDataRegionsColoured()
    ensures forall k :: 0 <= k < |ProvincesData| ==> RegionColor(ProvincesData[k].region) != DefaultColor
  {
  }

  /** Selecting id k + 1 shows the table's k-th province, since the ids are
      distinct. */
  lemma SelectedFromTable(k: nat)
    requires k < 18
    ensures SelectedProvinceData(ProvincesData, Some(k + 1)) == Some(ProvincesData[k])
  {
    ProvincesDataShape();
    var r := FindById(ProvincesData, k + 1);
    assert r.Some? by { assert ProvincesData[k].id == k + 1; }
  }

  /** The totals shown for DKI Jakarta, the first province of the table. */
  lemma JakartaTotal()
    ensures TotalSubsidies(ProvincesData[0]) == 327500000000
  {
    FourCategoryTotal(ProvincesData[0]);
  }

  /** The dashboard's own state: the selected province id, or none. */
  class DashboardPage {
    var selectedProvince: Option<int>

    constructor ()
      ensures selectedProvince == None
    {
      selectedProvince := None;
    }

    method HandleProvinceClick(provinceId: int)
      modifies this
      ensures selectedProvince == Toggle(old(selectedProvince), provinceId)
    {
      selectedProvince := Toggle(selectedProvince, provinceId);
    }

    /** A click on a map path: the map reports a matched province's id to
        `handleProvinceClick`, and a click on an unmatched path does
        nothing. */
    method HandleMapClick(provinces: seq<Province>, pathName: string)
      modifies this
      ensures selectedProvince == (match ClickTarget(provinces, pathName)
        case Some(provinceId) => Toggle(old(selectedProvince), provinceId)
        case None => old(selectedProvince))
    {
      match ClickTarget(provinces, pathName) {
        case Some(provinceId) => HandleProvinceClick(provinceId);
        case None =>
      }
    }
  }
}

/** The backend carbon calculator: per-record emissions and offsets under a
    stored factor record, and the in-memory halves of the metrics, sector and
    trend reports that run once the database query has returned its records.
    The query result is an input sequence and the stored factor record an
    optional input; quantities are exact reals. */
module BackendCalculations {
  import opened Wrappers
  import opened Sorting
  import Strings
  import Grouping
  import CarbonCalculations

  /** A `monthly_data` row: the columns the calculations read. */
  datatype MonthlyData = MonthlyData(
    id: string,
    userId: string,
    month: string,
    year: int,
    electricityKwh: real,
    dieselLiters: real,
    petrolLiters: real,
    wasteKg: real,
    waterLiters: real,
    solarUnits: real,
    treesPlanted: int)

  /** An `emission_factors` row. */
  datatype EmissionFactors = EmissionFactors(
    electricity: real,
    diesel: real,
    petrol: real,
    waste: real,
    water: real,
    treePerYear: real,
    solarPerUnit: real)

  /** The column defaults, used when no factor row is stored. */
  const DefaultFactors: EmissionFactors := EmissionFactors(0.82, 2.68, 2.31, 0.6, 0.000344, 21.77, 0.5)

  /** The first stored factor row, or a fresh row with the column defaults. */
  function FactorsIn(stored: Option<EmissionFactors>): EmissionFactors
  {
    if stored.Some? then stored.value else DefaultFactors
  }

  datatype Breakdown = Breakdown(
    electricity: real,
    diesel: real,
    petrol: real,
    waste: real,
    water: real,
    trees: real,
    solar: real)

  /** The dictionary `calculate_emissions` returns. */
  datatype Calculation = Calculation(
    totalEmissions: real,
    totalOffsets: real,
    netFootprint: real,
    isNeutral: bool,
    breakdown: Breakdown)

  datatype CarbonMetricsResponse = CarbonMetricsResponse(
    totalEmissions: real,
    totalOffsets: real,
    netFootprint: real,
    isNeutral: bool)

  predicate IsNonNegative(d: MonthlyData)
  {
    d.electricityKwh >= 0.0 && d.dieselLiters >= 0.0 && d.petrolLiters >= 0.0 && d.wasteKg >= 0.0
    && d.waterLiters >= 0.0 && d.solarUnits >= 0.0 && d.treesPlanted >= 0
  }

  predicate AllNonNegative(data: seq<MonthlyData>)
  {
    forall i :: 0 <= i < |data| ==> IsNonNegative(data[i])
  }

  predicate FactorsNonNegative(f: EmissionFactors)
  {
    f.electricity >= 0.0 && f.diesel >= 0.0 && f.petrol >= 0.0 && f.waste >= 0.0
    && f.water >= 0.0 && f.treePerYear >= 0.0 && f.solarPerUnit >= 0.0
  }

  // ---------------------------------------------------------------------
  // calculate_emissions

  function BreakdownOf(d: MonthlyData, f: EmissionFactors): Breakdown
  {
    Breakdown(
      d.electricityKwh * f.electricity,
      d.dieselLiters * f.diesel,
      d.petrolLiters * f.petrol,
      d.wasteKg * f.waste,
      d.waterLiters * f.water,
      (d.treesPlanted as real) * f.treePerYear / 12.0,
      d.solarUnits * f.solarPerUnit)
  }

  /** Emissions are the five consumption entries of the breakdown and offsets
      its two absorption entries; the record is neutral when its net is not
      positive, that is when its offsets cover its emissions. */
  function CalculateEmissions(d: MonthlyData, f: EmissionFactors): (c: Calculation)
    ensures c.breakdown == BreakdownOf(d, f)
    ensures c.totalEmissions
         == c.breakdown.electricity + c.breakdown.diesel + c.breakdown.petrol + c.breakdown.waste + c.breakdown.water
    ensures c.totalOffsets == c.breakdown.trees + c.breakdown.solar
    ensures c.netFootprint == c.totalEmissions - c.totalOffsets
    ensures c.isNeutral <==> c.totalEmissions <= c.totalOffsets
  {
    var b := BreakdownOf(d, f);
    var totalEmissions := b.electricity + b.diesel + b.petrol + b.waste + b.water;
    var totalOffsets := b.trees + b.solar;
    var netFootprint := totalEmissions - totalOffsets;
    Calculation(totalEmissions, totalOffsets, netFootprint, netFootprint <= 0.0, b)
  }

  /** A product of two non-negative reals is non-negative. */
  lemma ProductNonNegative(x: real, y: real)
    requires x >= 0.0 && y >= 0.0
    ensures x * y >= 0.0
  {
  }

  /** Non-negative quantities under non-negative factors give a breakdown with
      no negative entry. */
  lemma BreakdownNonNegative(d: MonthlyData, f: EmissionFactors)
    requires IsNonNegative(d) && FactorsNonNegative(f)
    ensures var b := BreakdownOf(d, f);
      b.electricity >= 0.0 && b.diesel >= 0.0 && b.petrol >= 0.0 && b.waste >= 0.0
      && b.water >= 0.0 && b.trees >= 0.0 && b.solar >= 0.0
  {
    ProductNonNegative(d.electricityKwh, f.electricity);
    ProductNonNegative(d.dieselLiters, f.diesel);
    ProductNonNegative(d.petrolLiters, f.petrol);
    ProductNonNegative(d.wasteKg, f.waste);
    ProductNonNegative(d.waterLiters, f.water);
    ProductNonNegative(d.treesPlanted as real, f.treePerYear);
    ProductNonNegative(d.solarUnits, f.solarPerUnit);
  }

  /** A row with every quantity zero. */
  function ZeroRecord(month: string, year: int): MonthlyData
  {
    MonthlyData("", "", month, year, 0.0, 0.0, 0.0, 0.0, 0.0, 0.0, 0)
  }

  /** Under the default factors 100 kWh emit 82 kg. */
  lemma DefaultElectricityExample()
    ensures CalculateEmissions(ZeroRecord("Jan", 2024).(electricityKwh := 100.0), DefaultFactors).totalEmissions == 82.0
  {
    var b := BreakdownOf(ZeroRecord("Jan", 2024).(electricityKwh := 100.0), DefaultFactors);
    assert b.electricity == 82.0 && b.diesel == b.petrol == b.waste == b.water == 0.0;
  }

  /** Under the default factors 12 trees offset 21.77 kg a month. */
  lemma DefaultTreeExample()
    ensures CalculateEmissions(ZeroRecord("Jan", 2024).(treesPlanted := 12), DefaultFactors).totalOffsets == 21.77
  {
    var b := BreakdownOf(ZeroRecord("Jan", 2024).(treesPlanted := 12), DefaultFactors);
    assert b.trees == 12.0 * 21.77 / 12.0 == 21.77;
    assert b.solar == 0.0;
  }

  /** A row with nothing in it is neutral. */
  lemma EmptyRowIsNeutral(f: EmissionFactors)
    ensures CalculateEmissions(ZeroRecord("Jan", 2024), f).isNeutral
  {
  }

  // ---------------------------------------------------------------------
  // Agreement with the frontend calculator

  /** The frontend's factors written as a backend factor row. */
  const FrontendFactors: EmissionFactors := EmissionFactors(0.82, 2.68, 2.31, 0.5, 0.0003, 21.0, 0.82)

  function ToFrontend(d: MonthlyData): CarbonCalculations.MonthlyData
  {
    CarbonCalculations.MonthlyData(d.id, d.userId, d.month, d.year, d.electricityKwh, d.dieselLiters,
      d.petrolLiters, d.wasteKg, d.waterLiters, d.solarUnits, d.treesPlanted as real)
  }

  /** Given the frontend's factors, the backend computes the frontend's numbers. */
  lemma AgreesWithFrontend(d: MonthlyData)
    ensures CalculateEmissions(d, FrontendFactors).totalEmissions == CarbonCalculations.CalculateEmissions(ToFrontend(d))
    ensures CalculateEmissions(d, FrontendFactors).totalOffsets == CarbonCalculations.CalculateOffsets(ToFrontend(d))
  {
  }

  /** The stored defaults differ from the frontend's: one kilogram of waste
      emits 0.6 kg in the backend and 0.5 kg in the frontend. */
  lemma DefaultsDifferFromFrontend()
    ensures CalculateEmissions(ZeroRecord("Jan", 2024).(wasteKg := 1.0), DefaultFactors).totalEmissions == 0.6
    ensures CarbonCalculations.CalculateEmissions(ToFrontend(ZeroRecord("Jan", 2024).(wasteKg := 1.0))) == 0.5
  {
  }

  // ---------------------------------------------------------------------
  // get_carbon_metrics

  /** The running emission total of the accumulation loop. */
  function TotalEmissions(data: seq<MonthlyData>, f: EmissionFactors): real
  {
    if data == [] then 0.0
    else TotalEmissions(data[..|data| - 1], f) + CalculateEmissions(data[|data| - 1], f).totalEmissions
  }

  function TotalOffsets(data: seq<MonthlyData>, f: EmissionFactors): real
  {
    if data == [] then 0.0
    else TotalOffsets(data[..|data| - 1], f) + CalculateEmissions(data[|data| - 1], f).totalOffsets
  }

  /** The metrics report: zeros and neutral for no records, otherwise the
      accumulated totals, their difference, and neutral exactly when the
      offsets cover the emissions. */
  method GetCarbonMetrics(data: seq<MonthlyData>, stored: Option<EmissionFactors>)
    returns (m: CarbonMetricsResponse)
    ensures data == [] ==> m == CarbonMetricsResponse(0.0, 0.0, 0.0, true)
    ensures data != [] ==>
      && m.totalEmissions == TotalEmissions(data, FactorsIn(stored))
      && m.totalOffsets == TotalOffsets(data, FactorsIn(stored))
    ensures m.netFootprint == m.totalEmissions - m.totalOffsets
    ensures m.isNeutral <==> m.totalEmissions <= m.totalOffsets
  {
    if data == [] {
      return CarbonMetricsResponse(0.0, 0.0, 0.0, true);
    }
    var f := FactorsIn(stored);
    var totalEmissions, totalOffsets := 0.0, 0.0;
    for i := 0 to |data|
      invariant totalEmissions == TotalEmissions(data[..i], f)
      invariant totalOffsets == TotalOffsets(data[..i], f)
    {
      assert data[..i + 1][..i] == data[..i];
      var calculations := CalculateEmissions(data[i], f);
      totalEmissions := totalEmissions + calculations.totalEmissions;
      totalOffsets := totalOffsets + calculations.totalOffsets;
    }
    assert data[..|data|] == data;
    var netFootprint := totalEmissions - totalOffsets;
    m := CarbonMetricsResponse(totalEmissions, totalOffsets, netFootprint, netFootprint <= 0.0);
  }

  /** Under the frontend's factors the backend totals are the frontend totals
      before rounding. */
  lemma {:induction false} TotalsAgreeWithFrontend(data: seq<MonthlyData>)
    ensures TotalEmissions(data, FrontendFactors)
         == CarbonCalculations.TotalEmissions(seq(|data|, i requires 0 <= i < |data| => ToFrontend(data[i])))
    ensures TotalOffsets(data, FrontendFactors)
         == CarbonCalculations.TotalOffsets(seq(|data|, i requires 0 <= i < |data| => ToFrontend(data[i])))
  {
    var converted := seq(|data|, i requires 0 <= i < |data| => ToFrontend(data[i]));
    if data != [] {
      var init := data[..|data| - 1];
      TotalsAgreeWithFrontend(init);
      assert converted[..|converted| - 1] == seq(|init|, i requires 0 <= i < |init| => ToFrontend(init[i]));
      AgreesWithFrontend(data[|data| - 1]);
    }
  }

  lemma {:induction false} TotalsNonNegative(data: seq<MonthlyData>, f: EmissionFactors)
    requires AllNonNegative(data) && FactorsNonNegative(f)
    ensures TotalEmissions(data, f) >= 0.0 && TotalOffsets(data, f) >= 0.0
  {
    if data != [] {
      TotalsNonNegative(data[..|data| - 1], f);
      BreakdownNonNegative(data[|data| - 1], f);
    }
  }

  // ---------------------------------------------------------------------
  // get_sector_emissions

  datatype SectorEmission = SectorEmission(sector: string, emission: real, percentage: real, color: string)

  /** The keys of `sector_totals` in insertion order, after `.title()`. */
  const SectorNames: seq<string> := ["Electricity", "Transport", "Waste", "Water"]

  const SectorColors: seq<string> := ["#3b82f6", "#ef4444", "#10b981", "#f59e0b"]

  /** `sector_totals` after one more record: transport takes diesel plus petrol. */
  function AddBreakdown(t: seq<real>, b: Breakdown): (r: seq<real>)
    requires |t| == 4
    ensures |r| == 4
  {
    [t[0] + b.electricity, t[1] + (b.diesel + b.petrol), t[2] + b.waste, t[3] + b.water]
  }

  /** `sector_totals` once every record has been folded in. */
  function SectorTotals(data: seq<MonthlyData>, f: EmissionFactors): (t: seq<real>)
    ensures |t| == 4
  {
    if data == [] then [0.0, 0.0, 0.0, 0.0]
    else AddBreakdown(SectorTotals(data[..|data| - 1], f), CalculateEmissions(data[|data| - 1], f).breakdown)
  }

  /** `sum(sector_totals.values())`. */
  function Sum4(t: seq<real>): real
    requires |t| == 4
  {
    t[0] + t[1] + t[2] + t[3]
  }

  /** The entry appended for sector i, if its total is positive. */
  function SectorEntry(t: seq<real>, total: real, i: nat): seq<SectorEmission>
    requires |t| == 4 && i < 4 && total != 0.0
  {
    if t[i] > 0.0 then [SectorEmission(SectorNames[i], t[i], (t[i] / total) * 100.0, SectorColors[i])] else []
  }

  /** `sector_data` after the first n sectors have been considered. */
  function KeptSectors(t: seq<real>, total: real, n: nat): seq<SectorEmission>
    requires |t| == 4 && n <= 4 && total != 0.0
  {
    if n == 0 then [] else KeptSectors(t, total, n - 1) + SectorEntry(t, total, n - 1)
  }

  function NegatedEmission(s: SectorEmission): real
  {
    -s.emission
  }

  function SectorPercentage(s: SectorEmission): real
  {
    s.percentage
  }

  /** `sort(key=lambda x: x.emission, reverse=True)` keeps equal keys in their
      order, so it is the stable ascending sort on the negated emission. */
  function SortDescending(s: seq<SectorEmission>): seq<SectorEmission>
  {
    SortBy(s, NegatedEmission)
  }

  /** What `get_sector_emissions` returns for the query result data. */
  function SectorEmissions(data: seq<MonthlyData>, f: EmissionFactors): seq<SectorEmission>
  {
    if data == [] then []
    else
      var t := SectorTotals(data, f);
      if Sum4(t) == 0.0 then [] else SortDescending(KeptSectors(t, Sum4(t), 4))
  }

  /** The accumulation loop over the records, to `sector_totals`. */
  method AccumulateSectors(data: seq<MonthlyData>, f: EmissionFactors) returns (sectorTotals: seq<real>)
    ensures sectorTotals == SectorTotals(data, f)
  {
    sectorTotals := [0.0, 0.0, 0.0, 0.0];
    for i := 0 to |data|
      invariant sectorTotals == SectorTotals(data[..i], f)
    {
      assert data[..i + 1][..i] == data[..i];
      var breakdown := CalculateEmissions(data[i], f).breakdown;
      ghost var before := sectorTotals;
      sectorTotals := sectorTotals[0 := sectorTotals[0] + breakdown.electricity];
      sectorTotals := sectorTotals[1 := sectorTotals[1] + (breakdown.diesel + breakdown.petrol)];
      sectorTotals := sectorTotals[2 := sectorTotals[2] + breakdown.waste];
      sectorTotals := sectorTotals[3 := sectorTotals[3] + breakdown.water];
      assert sectorTotals == AddBreakdown(before, breakdown);
    }
    assert data[..|data|] == data;
  }

  /** The loop over the four sectors, to `sector_data`. */
  method KeepSectors(sectorTotals: seq<real>, total: real) returns (sectorData: seq<SectorEmission>)
    requires |sectorTotals| == 4 && total != 0.0
    ensures sectorData == KeptSectors(sectorTotals, total, 4)
  {
    sectorData := [];
    for i := 0 to 4
      invariant sectorData == KeptSectors(sectorTotals, total, i)
    {
      if sectorTotals[i] > 0.0 {
        var percentage := (sectorTotals[i] / total) * 100.0;
        sectorData := sectorData + [SectorEmission(SectorNames[i], sectorTotals[i], percentage, SectorColors[i])];
      }
    }
  }

  method GetSectorEmissions(data: seq<MonthlyData>, stored: Option<EmissionFactors>)
    returns (sectors: seq<SectorEmission>)
    ensures sectors == SectorEmissions(data, FactorsIn(stored))
  {
    if data == [] {
      return [];
    }
    var f := FactorsIn(stored);
    var sectorTotals := AccumulateSectors(data, f);
    var total := sectorTotals[0] + sectorTotals[1] + sectorTotals[2] + sectorTotals[3];
    assert total == Sum4(SectorTotals(data, f));
    if total == 0.0 {
      return [];
    }
    var sectorData := KeepSectors(sectorTotals, total);
    assert SectorEmissions(data, f) == SortDescending(sectorData);
    sectors := SortDescending(sectorData);
  }

  /** The four sector totals add up to the emission total of the metrics report;
      in particular transport carries all diesel and all petrol emissions. */
  lemma {:induction false} SectorsPartitionEmissions(data: seq<MonthlyData>, f: EmissionFactors)
    ensures Sum4(SectorTotals(data, f)) == TotalEmissions(data, f)
  {
    if data != [] {
      SectorsPartitionEmissions(data[..|data| - 1], f);
    }
  }

  lemma {:induction false} SectorTotalsNonNegative(data: seq<MonthlyData>, f: EmissionFactors)
    requires AllNonNegative(data) && FactorsNonNegative(f)
    ensures forall i :: 0 <= i < 4 ==> SectorTotals(data, f)[i] >= 0.0
  {
    if data != [] {
      SectorTotalsNonNegative(data[..|data| - 1], f);
      BreakdownNonNegative(data[|data| - 1], f);
    }
  }

  /** The entry of sector i, whenever one is reported. */
  function EntryFor(t: seq<real>, total: real, i: nat): SectorEmission
    requires |t| == 4 && i < 4 && total != 0.0
  {
    SectorEmission(SectorNames[i], t[i], (t[i] / total) * 100.0, SectorColors[i])
  }

  lemma {:induction false} KeptSectorsMembers(t: seq<real>, total: real, n: nat, s: SectorEmission)
    requires |t| == 4 && n <= 4 && total != 0.0
    ensures s in KeptSectors(t, total, n) <==> exists i :: 0 <= i < n && t[i] > 0.0 && s == EntryFor(t, total, i)
  {
    if n > 0 {
      KeptSectorsMembers(t, total, n - 1, s);
      if s == EntryFor(t, total, n - 1) && t[n - 1] > 0.0 {
        assert s in SectorEntry(t, total, n - 1);
      }
    }
  }

  /** Sector i is reported exactly when its total is positive, with its own
      name and colour and its share of the total in percent; nothing else is
      reported. */
  lemma ReportedSectors(data: seq<MonthlyData>, f: EmissionFactors, s: SectorEmission)
    requires data != [] && Sum4(SectorTotals(data, f)) != 0.0
    ensures s in SectorEmissions(data, f)
        <==> exists i :: 0 <= i < 4 && SectorTotals(data, f)[i] > 0.0
                      && s == EntryFor(SectorTotals(data, f), Sum4(SectorTotals(data, f)), i)
  {
    var t := SectorTotals(data, f);
    var kept := KeptSectors(t, Sum4(t), 4);
    assert multiset(SortDescending(kept)) == multiset(kept);
    assert s in SortDescending(kept) <==> s in kept by {
      assert s in SortDescending(kept) <==> s in multiset(SortDescending(kept));
    }
    KeptSectorsMembers(t, Sum4(t), 4, s);
  }

  /** Every reported sector has a positive emission. */
  lemma ReportedEmissionsPositive(data: seq<MonthlyData>, f: EmissionFactors)
    ensures forall s :: s in SectorEmissions(data, f) ==> s.emission > 0.0
  {
    forall s | s in SectorEmissions(data, f) ensures s.emission > 0.0 {
      ReportedSectors(data, f, s);
    }
  }

  /** The report lists sectors from the largest emission down. */
  lemma ReportedInDescendingOrder(data: seq<MonthlyData>, f: EmissionFactors)
    ensures forall i, j :: 0 <= i < j < |SectorEmissions(data, f)| ==>
      SectorEmissions(data, f)[i].emission >= SectorEmissions(data, f)[j].emission
  {
    if data != [] && Sum4(SectorTotals(data, f)) != 0.0 {
      var t := SectorTotals(data, f);
      var r := SectorEmissions(data, f);
      SortByIsSorted(KeptSectors(t, Sum4(t), 4), NegatedEmission);
      assert forall i, j :: 0 <= i < j < |r| ==> NegatedEmission(r[i]) <= NegatedEmission(r[j]);
    }
  }

  /** The part of t's sum that comes from positive entries among the first n. */
  function PositiveSum(t: seq<real>, n: nat): real
    requires |t| == 4 && n <= 4
  {
    if n == 0 then 0.0 else PositiveSum(t, n - 1) + (if t[n - 1] > 0.0 then t[n - 1] else 0.0)
  }

  lemma {:induction false} KeptPercentages(t: seq<real>, total: real, n: nat)
    requires |t| == 4 && n <= 4 && total != 0.0
    ensures SumBy(KeptSectors(t, total, n), SectorPercentage) == (PositiveSum(t, n) / total) * 100.0
  {
    if n > 0 {
      KeptPercentages(t, total, n - 1);
      SumByAppend(KeptSectors(t, total, n - 1), SectorEntry(t, total, n - 1), SectorPercentage);
      var x := if t[n - 1] > 0.0 then t[n - 1] else 0.0;
      SharesAdd(PositiveSum(t, n - 1), x, total);
    }
  }

  lemma SharesAdd(a: real, b: real, total: real)
    requires total != 0.0
    ensures (a / total) * 100.0 + (b / total) * 100.0 == ((a + b) / total) * 100.0
  {
  }

  /** Over non-negative data and factors the sectors dropped for a zero
      emission hold nothing, so the reported percentages sum to 100. */
  lemma PercentagesSumTo100(data: seq<MonthlyData>, f: EmissionFactors)
    requires AllNonNegative(data) && FactorsNonNegative(f)
    requires SectorEmissions(data, f) != []
    ensures SumBy(SectorEmissions(data, f), SectorPercentage) == 100.0
  {
    var t := SectorTotals(data, f);
    var total := Sum4(t);
    var kept := KeptSectors(t, total, 4);
    assert SectorEmissions(data, f) == SortDescending(kept);
    assert SumBy(SortDescending(kept), SectorPercentage) == SumBy(kept, SectorPercentage) by {
      SumBySort(kept, NegatedEmission, SectorPercentage);
    }
    assert SumBy(kept, SectorPercentage) == (total / total) * 100.0 by {
      SectorTotalsNonNegative(data, f);
      PositiveSumOfNonNegative(t);
      KeptPercentages(t, total, 4);
    }
  }

  lemma PositiveSumOfNonNegative(t: seq<real>)
    requires |t| == 4 && forall i :: 0 <= i < 4 ==> t[i] >= 0.0
    ensures PositiveSum(t, 4) == Sum4(t)
  {
    assert PositiveSum(t, 1) == t[0];
    assert PositiveSum(t, 2) == t[0] + t[1];
    assert PositiveSum(t, 3) == t[0] + t[1] + t[2];
  }

  /** A report over records with zero consumption is empty. */
  lemma ZeroConsumptionGivesNoSectors(data: seq<MonthlyData>, f: EmissionFactors)
    requires forall i :: 0 <= i < |data| ==> CalculateEmissions(data[i], f).totalEmissions == 0.0
    ensures SectorEmissions(data, f) == []
  {
    SectorsPartitionEmissions(data, f);
    ZeroTotal(data, f);
  }

  lemma {:induction false} ZeroTotal(data: seq<MonthlyData>, f: EmissionFactors)
    requires forall i :: 0 <= i < |data| ==> CalculateEmissions(data[i], f).totalEmissions == 0.0
    ensures TotalEmissions(data, f) == 0.0
  {
    if data != [] {
      ZeroTotal(data[..|data| - 1], f);
    }
  }

  // ---------------------------------------------------------------------
  // get_monthly_trends

  datatype MonthlyTrend = MonthlyTrend(month: string, emissions: real, offsets: real, net: real)

  /** The exception that ends the report: `int()` of a year segment that is
      not a decimal numeral, or a key with no second segment. */
  datatype TrendError = ValueError(literal: string) | IndexError

  /** The dictionary key `f"{data.year}-{data.month}"`. */
  function TrendKey(d: MonthlyData): string
  {
    Strings.IntToString(d.year) + "-" + d.month
  }

  /** The keys of `month_data`, in the order they were first inserted. */
  function KeysInOrder(data: seq<MonthlyData>): seq<string>
  {
    Grouping.KeysInOrder(data, TrendKey)
  }

  /** `month_data[k]`: the records filed under key k, in input order. */
  function Group(data: seq<MonthlyData>, k: string): seq<MonthlyData>
  {
    Grouping.Group(data, k, TrendKey)
  }

  /** One iteration of the loop over the sorted keys. */
  function TrendOf(data: seq<MonthlyData>, f: EmissionFactors, key: string): Result<MonthlyTrend, TrendError>
  {
    var yearMonth := Strings.Split(key, '-');
    match Strings.ParseDecimal(yearMonth[0])
    case None => Err(ValueError(yearMonth[0]))
    case Some(yearVal) =>
      if |yearMonth| < 2 then Err(IndexError) else Ok(GroupTrend(data, f, key, yearMonth[1], yearVal))
  }

  /** The trend entry of key, labelled `f"{month_val} {year_val}"`. */
  function GroupTrend(data: seq<MonthlyData>, f: EmissionFactors, key: string, monthVal: string, yearVal: int): MonthlyTrend
  {
    var g := Group(data, key);
    MonthlyTrend(monthVal + " " + Strings.IntToString(yearVal), TotalEmissions(g, f), TotalOffsets(g, f),
      TotalEmissions(g, f) - TotalOffsets(g, f))
  }

  /** The trends of the given keys in order, or the first key's exception. */
  function TrendsOver(data: seq<MonthlyData>, f: EmissionFactors, keys: seq<string>): Result<seq<MonthlyTrend>, TrendError>
  {
    Traverse(keys, KeyTrendOf(data, f))
  }

  function KeyTrendOf(data: seq<MonthlyData>, f: EmissionFactors): string -> Result<MonthlyTrend, TrendError>
  {
    key => TrendOf(data, f, key)
  }

  /** What `get_monthly_trends` returns, or raises, for the query result data. */
  function MonthlyTrends(data: seq<MonthlyData>, f: EmissionFactors): Result<seq<MonthlyTrend>, TrendError>
  {
    if data == [] then Ok([]) else TrendsOver(data, f, Strings.SortStrings(KeysInOrder(data)))
  }

  /** `month_data` and its key order after filing the records of prefix. */
  ghost predicate GroupsModel(monthData: map<string, seq<MonthlyData>>, keys: seq<string>, prefix: seq<MonthlyData>)
  {
    && keys == KeysInOrder(prefix)
    && (forall k :: k in monthData <==> k in keys)
    && (forall k :: k in monthData ==> monthData[k] == Group(prefix, k))
  }

  /** A key whose year segment parses and that has a month segment yields its group's trend. */
  lemma TrendOfParsedKey(data: seq<MonthlyData>, f: EmissionFactors, key: string, yearMonth: seq<string>, yearVal: int)
    requires yearMonth == Strings.Split(key, '-') && |yearMonth| >= 2
    requires Strings.ParseDecimal(yearMonth[0]) == Some(yearVal)
    ensures TrendOf(data, f, key) == Ok(GroupTrend(data, f, key, yearMonth[1], yearVal))
  {
  }

  /** The group's trend, from the sums over its records. */
  lemma GroupTrendOfSums(data: seq<MonthlyData>, f: EmissionFactors, key: string, monthVal: string, yearVal: int,
                         group: seq<MonthlyData>, emissions: real, offsets: real)
    requires group == Group(data, key)
    requires emissions == TotalEmissions(group, f) && offsets == TotalOffsets(group, f)
    ensures GroupTrend(data, f, key, monthVal, yearVal)
         == MonthlyTrend(monthVal + " " + Strings.IntToString(yearVal), emissions, offsets, emissions - offsets)
  {
  }

  /** The grouping loop: `month_data` and its keys in insertion order. */
  method GroupByKey(data: seq<MonthlyData>) returns (monthData: map<string, seq<MonthlyData>>, keys: seq<string>)
    ensures keys == KeysInOrder(data)
    ensures forall k :: k in monthData <==> k in keys
    ensures forall k :: k in monthData ==> monthData[k] == Group(data, k)
  {
    monthData, keys := map[], [];
    for i := 0 to |data|
      invariant GroupsModel(monthData, keys, data[..i])
    {
      assert data[..i + 1] == data[..i] + [data[i]];
      monthData, keys := FileOne(monthData, keys, data[..i], data[i]);
    }
    assert data[..|data|] == data;
  }

  /** One pass of the grouping loop: `month_data[key].append(data)`, the list
      created first when the key is new. */
  method FileOne(monthData: map<string, seq<MonthlyData>>, keys: seq<string>, ghost prefix: seq<MonthlyData>, d: MonthlyData)
    returns (newData: map<string, seq<MonthlyData>>, newKeys: seq<string>)
    requires GroupsModel(monthData, keys, prefix)
    ensures GroupsModel(newData, newKeys, prefix + [d])
  {
    var key := TrendKey(d);
    newData, newKeys := monthData, keys;
    if key !in newData {
      newData := newData[key := []];
      newKeys := newKeys + [key];
    }
    newData := newData[key := newData[key] + [d]];
    assert (prefix + [d])[..|prefix|] == prefix;
    if key !in monthData {
      Grouping.GroupEmptyIffAbsent(prefix, key, TrendKey);
    }
  }


  /** The inner accumulation over one key's records. */
  method SumGroup(group: seq<MonthlyData>, f: EmissionFactors) returns (monthEmissions: real, monthOffsets: real)
    ensures monthEmissions == TotalEmissions(group, f)
    ensures monthOffsets == TotalOffsets(group, f)
  {
    monthEmissions, monthOffsets := 0.0, 0.0;
    for m := 0 to |group|
      invariant monthEmissions == TotalEmissions(group[..m], f)
      invariant monthOffsets == TotalOffsets(group[..m], f)
    {
      assert group[..m + 1][..m] == group[..m];
      var calculations := CalculateEmissions(group[m], f);
      monthEmissions := monthEmissions + calculations.totalEmissions;
      monthOffsets := monthOffsets + calculations.totalOffsets;
    }
    assert group[..|group|] == group;
  }

  /** One pass of the loop over the sorted keys: parse the year, take the
      month segment, and sum the key's records. */
  method KeyTrend(data: seq<MonthlyData>, f: EmissionFactors, monthData: map<string, seq<MonthlyData>>, key: string)
    returns (t: Result<MonthlyTrend, TrendError>)
    requires key in monthData && monthData[key] == Group(data, key)
    ensures t == TrendOf(data, f, key)
  {
    var yearMonth := Strings.Split(key, '-');
    var yearVal := Strings.ParseDecimal(yearMonth[0]);
    if yearVal.None? {
      return Err(ValueError(yearMonth[0]));
    }
    if |yearMonth| < 2 {
      return Err(IndexError);
    }
    var monthVal := yearMonth[1];
    var monthEmissions, monthOffsets := SumGroup(monthData[key], f);
    var net := monthEmissions - monthOffsets;
    TrendOfParsedKey(data, f, key, yearMonth, yearVal.value);
    GroupTrendOfSums(data, f, key, monthVal, yearVal.value, monthData[key], monthEmissions, monthOffsets);
    t := Ok(MonthlyTrend(monthVal + " " + Strings.IntToString(yearVal.value), monthEmissions, monthOffsets, net));
  }

  method GetMonthlyTrends(data: seq<MonthlyData>, stored: Option<EmissionFactors>)
    returns (r: Result<seq<MonthlyTrend>, TrendError>)
    ensures r == MonthlyTrends(data, FactorsIn(stored))
  {
    if data == [] {
      return Ok([]);
    }
    var f := FactorsIn(stored);
    var monthData, keys := GroupByKey(data);
    var sortedKeys := Strings.SortStrings(keys);
    var trends: seq<MonthlyTrend> := [];
    for j := 0 to |sortedKeys|
      invariant TrendsOver(data, f, sortedKeys[..j]) == Ok(trends)
    {
      var key := sortedKeys[j];
      assert key in multiset(keys) by {
        assert key in multiset(sortedKeys);
      }
      var trend := KeyTrend(data, f, monthData, key);
      TraverseSnoc(sortedKeys, KeyTrendOf(data, f), j, trends);
      if trend.Err? {
        TraverseErrorStops(sortedKeys, KeyTrendOf(data, f), j);
        return Err(trend.error);
      }
      trends := trends + [trend.value];
    }
    assert sortedKeys[..|sortedKeys|] == sortedKeys;
    r := Ok(trends);
  }

  // ---------------------------------------------------------------------
  // Properties of the trend report

  /** `s.split('-')` of a string without '-' is the string alone. */
  lemma SplitWithoutSeparator(s: string)
    requires '-' !in s
    ensures Strings.Split(s, '-') == [s]
  {
  }

  /** The segments of a key: the year's digits, or "" before the sign of a
      negative year, and then the month up to its first '-'. */
  lemma KeySegments(d: MonthlyData)
    ensures |Strings.Split(TrendKey(d), '-')| >= 2
    ensures Strings.Split(TrendKey(d), '-')[0] == if d.year >= 0 then Strings.NatToString(d.year) else ""
    ensures d.year >= 0 ==> Strings.Split(TrendKey(d), '-')[1] == Strings.Split(d.month, '-')[0]
  {
    var month := d.month;
    if d.year >= 0 {
      var digits := Strings.NatToString(d.year);
      Strings.DigitsHaveNoSign(digits);
      assert TrendKey(d) == digits + ['-'] + month;
      Strings.SplitAfterPrefix(digits, '-', month);
    } else {
      var digits := Strings.NatToString(-d.year);
      Strings.DigitsHaveNoSign(digits);
      assert TrendKey(d) == [] + ['-'] + (digits + ['-'] + month);
      Strings.SplitAfterPrefix([], '-', digits + ['-'] + month);
    }
  }

  /** A record's key raises exactly when its year is negative; otherwise the
      entry is labelled with the month segment and the year. */
  lemma TrendOfRecordKey(data: seq<MonthlyData>, f: EmissionFactors, d: MonthlyData)
    ensures d.year < 0 ==> TrendOf(data, f, TrendKey(d)) == Err(ValueError(""))
    ensures d.year >= 0 ==>
      TrendOf(data, f, TrendKey(d)) == Ok(GroupTrend(data, f, TrendKey(d), Strings.Split(d.month, '-')[0], d.year))
  {
    KeySegments(d);
    if d.year >= 0 {
      Strings.ParseDecimalOfNatToString(d.year);
      assert Strings.NatToString(d.year) == Strings.IntToString(d.year);
    }
  }

  /** The trends of a key sequence exist exactly when no key raises. */
  lemma TrendsOverOk(data: seq<MonthlyData>, f: EmissionFactors, keys: seq<string>)
    ensures TrendsOver(data, f, keys).Ok? <==> forall j :: 0 <= j < |keys| ==> TrendOf(data, f, keys[j]).Ok?
  {
    TraverseOk(keys, KeyTrendOf(data, f));
  }

  /** When they exist, they are the keys' trends in order. */
  lemma TrendsOverValues(data: seq<MonthlyData>, f: EmissionFactors, keys: seq<string>)
    requires TrendsOver(data, f, keys).Ok?
    ensures |TrendsOver(data, f, keys).value| == |keys|
    ensures forall j :: 0 <= j < |keys| ==> Ok(TrendsOver(data, f, keys).value[j]) == TrendOf(data, f, keys[j])
  {
    TraverseValues(keys, KeyTrendOf(data, f));
  }

  /** The report raises exactly when some record has a negative year. */
  lemma MonthlyTrendsFailIffNegativeYear(data: seq<MonthlyData>, f: EmissionFactors)
    ensures MonthlyTrends(data, f).Err? <==> exists i :: 0 <= i < |data| && data[i].year < 0
  {
    if exists i :: 0 <= i < |data| && data[i].year < 0 {
      var i :| 0 <= i < |data| && data[i].year < 0;
      NegativeYearFails(data, f, i);
    }
    if MonthlyTrends(data, f).Err? {
      FailureHasNegativeYear(data, f);
    }
  }

  lemma NegativeYearFails(data: seq<MonthlyData>, f: EmissionFactors, i: int)
    requires 0 <= i < |data| && data[i].year < 0
    ensures MonthlyTrends(data, f).Err?
  {
    var sorted := Strings.SortStrings(KeysInOrder(data));
    assert MonthlyTrends(data, f) == TrendsOver(data, f, sorted);
    TrendsOverOk(data, f, sorted);
    TrendOfRecordKey(data, f, data[i]);
    assert TrendKey(data[i]) in sorted by {
      Grouping.KeysInOrderHasEveryKey(data, i, TrendKey);
      SameElements(sorted, KeysInOrder(data));
    }
    var j :| 0 <= j < |sorted| && sorted[j] == TrendKey(data[i]);
    assert TrendOf(data, f, sorted[j]).Err?;
  }

  lemma FailureHasNegativeYear(data: seq<MonthlyData>, f: EmissionFactors)
    requires MonthlyTrends(data, f).Err?
    ensures exists i :: 0 <= i < |data| && data[i].year < 0
  {
    var sorted := Strings.SortStrings(KeysInOrder(data));
    assert MonthlyTrends(data, f) == TrendsOver(data, f, sorted);
    TrendsOverOk(data, f, sorted);
    var j :| 0 <= j < |sorted| && TrendOf(data, f, sorted[j]).Err?;
    assert sorted[j] in KeysInOrder(data) by {
      SameElements(sorted, KeysInOrder(data));
    }
    Grouping.KeysInOrderHasOnlyKeys(data, sorted[j], TrendKey);
    var i :| 0 <= i < |data| && TrendKey(data[i]) == sorted[j];
    TrendOfRecordKey(data, f, data[i]);
  }

  /** A successful report has one entry per distinct key, taken in strictly
      increasing string order, each with net = emissions − offsets; every key
      comes from a record and every record's key is present. */
  lemma MonthlyTrendsShape(data: seq<MonthlyData>, f: EmissionFactors, keys: seq<string>)
    requires data != [] && MonthlyTrends(data, f).Ok?
    requires keys == Strings.SortStrings(KeysInOrder(data))
    ensures Strings.StrictlyIncreasing(keys)
    ensures forall k :: k in keys <==> exists i :: 0 <= i < |data| && TrendKey(data[i]) == k
    ensures |MonthlyTrends(data, f).value| == |keys|
    ensures forall j :: 0 <= j < |keys| ==> Ok(MonthlyTrends(data, f).value[j]) == TrendOf(data, f, keys[j])
    ensures forall j :: 0 <= j < |keys| ==>
      MonthlyTrends(data, f).value[j].net == MonthlyTrends(data, f).value[j].emissions - MonthlyTrends(data, f).value[j].offsets
  {
    Grouping.KeysInOrderNoDuplicates(data, TrendKey);
    Strings.SortStringsIncreasing(KeysInOrder(data));
    TrendsOverValues(data, f, keys);
    SortedKeysAreTheRecordKeys(data, keys);
  }

  lemma SortedKeysAreTheRecordKeys(data: seq<MonthlyData>, keys: seq<string>)
    requires keys == Strings.SortStrings(KeysInOrder(data))
    ensures forall k :: k in keys <==> exists i :: 0 <= i < |data| && TrendKey(data[i]) == k
  {
    SameElements(keys, KeysInOrder(data));
    Grouping.KeysInOrderAreTheDistinctKeys(data, TrendKey);
  }

  lemma SameElements(a: seq<string>, b: seq<string>)
    requires multiset(a) == multiset(b)
    ensures forall k :: k in a <==> k in b
  {
    forall k ensures k in a <==> k in b {
      assert k in a <==> k in multiset(a);
      assert k in b <==> k in multiset(b);
    }
  }

  /** With a non-negative year and a month name free of '-', a record's entry
      is labelled "month year" and carries the sums of the records sharing its key. */
  lemma RecordEntryLabel(data: seq<MonthlyData>, f: EmissionFactors, d: MonthlyData)
    requires d.year >= 0 && '-' !in d.month
    ensures TrendOf(data, f, TrendKey(d)).Ok?
    ensures TrendOf(data, f, TrendKey(d)).value.month == d.month + " " + Strings.NatToString(d.year)
    ensures TrendOf(data, f, TrendKey(d)).value.emissions == TotalEmissions(Group(data, TrendKey(d)), f)
    ensures TrendOf(data, f, TrendKey(d)).value.offsets == TotalOffsets(Group(data, TrendKey(d)), f)
  {
    TrendOfRecordKey(data, f, d);
    SplitWithoutSeparator(d.month);
  }
}

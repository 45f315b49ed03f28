/** The frontend carbon calculator: fixed emission and offset factors,
    per-record emissions and offsets, aggregate metrics, the five-sector
    breakdown and the per-(month, year) trend series. Quantities are exact
    reals; JavaScript's `Math.round(x * 100) / 100` is Numbers.Round2. */
module CarbonCalculations {
  import opened Numbers
  import opened Sorting
  import Strings
  import Grouping

  /** One month of consumption and offset data for one user. */
  datatype MonthlyData = MonthlyData(
    id: string,
    userId: string,
    month: string,
    year: int,
    electricityKwh: real,
    dieselLiters: real,
    petrolLiters: real,
    wasteKg: real,
    waterLiters: real,
    solarUnits: real,
    treesPlanted: real)

  /** kg CO2 per unit of each consumed quantity. */
  datatype EmissionFactors = EmissionFactors(electricity: real, diesel: real, petrol: real, waste: real, water: real)

  /** kg CO2 absorbed per tree per year, and offset per generated solar unit. */
  datatype OffsetFactors = OffsetFactors(treePerYear: real, solarPerUnit: real)

  const StandardEmissionFactors: EmissionFactors := EmissionFactors(0.82, 2.68, 2.31, 0.5, 0.0003)
  const StandardOffsetFactors: OffsetFactors := OffsetFactors(21.0, 0.82)

  datatype CarbonMetrics = CarbonMetrics(totalEmissions: real, totalOffsets: real, netFootprint: real, isNeutral: bool)

  /** A sector's share of the total, or the NaN / Infinity that JavaScript
      produces when the total it divides by is zero. */
  datatype Percentage = Percent(value: real) | Undefined

  datatype SectorEmission = SectorEmission(sector: string, emission: real, percentage: Percentage, color: string)

  datatype MonthlyTrend = MonthlyTrend(month: string, emissions: real, offsets: real, net: real)

  predicate IsNonNegative(d: MonthlyData)
  {
    d.electricityKwh >= 0.0 && d.dieselLiters >= 0.0 && d.petrolLiters >= 0.0 && d.wasteKg >= 0.0
    && d.waterLiters >= 0.0 && d.solarUnits >= 0.0 && d.treesPlanted >= 0.0
  }

  predicate AllNonNegative(data: seq<MonthlyData>)
  {
    forall i :: 0 <= i < |data| ==> IsNonNegative(data[i])
  }

  // ---------------------------------------------------------------------
  // Per-record emissions, offsets and net footprint

  function CalculateEmissions(d: MonthlyData): (e: real)
    ensures IsNonNegative(d) ==> e >= 0.0
  {
    d.electricityKwh * StandardEmissionFactors.electricity
    + d.dieselLiters * StandardEmissionFactors.diesel
    + d.petrolLiters * StandardEmissionFactors.petrol
    + d.wasteKg * StandardEmissionFactors.waste
    + d.waterLiters * StandardEmissionFactors.water
  }

  /** Annual tree absorption is spread over twelve months. */
  function CalculateOffsets(d: MonthlyData): (o: real)
    ensures IsNonNegative(d) ==> o >= 0.0
  {
    (d.treesPlanted * StandardOffsetFactors.treePerYear) / 12.0
    + d.solarUnits * StandardOffsetFactors.solarPerUnit
  }

  /** The net footprint is not positive exactly when offsets cover emissions. */
  function CalculateNetFootprint(emissions: real, offsets: real): (net: real)
    ensures net <= 0.0 <==> emissions <= offsets
    ensures net + offsets == emissions
  {
    emissions - offsets
  }

  function ZeroRecord(id: string, userId: string, month: string, year: int): MonthlyData
  {
    MonthlyData(id, userId, month, year, 0.0, 0.0, 0.0, 0.0, 0.0, 0.0, 0.0)
  }

  lemma ZeroRecordHasNoEmissionsOrOffsets(id: string, userId: string, month: string, year: int)
    ensures CalculateEmissions(ZeroRecord(id, userId, month, year)) == 0.0
    ensures CalculateOffsets(ZeroRecord(id, userId, month, year)) == 0.0
  {
  }

  /** 100 kWh of electricity alone emits 82 kg; 120 trees alone offset 210 kg a month. */
  lemma WorkedExamples()
    ensures CalculateEmissions(ZeroRecord("r", "u", "Jan", 2024).(electricityKwh := 100.0)) == 82.0
    ensures CalculateOffsets(ZeroRecord("r", "u", "Jan", 2024).(treesPlanted := 120.0)) == 210.0
  {
  }

  // ---------------------------------------------------------------------
  // Aggregate metrics

  /** The running emission total of the `forEach` accumulation. */
  function TotalEmissions(data: seq<MonthlyData>): real
  {
    if data == [] then 0.0
    else TotalEmissions(data[..|data| - 1]) + CalculateEmissions(data[|data| - 1])
  }

  function TotalOffsets(data: seq<MonthlyData>): real
  {
    if data == [] then 0.0
    else TotalOffsets(data[..|data| - 1]) + CalculateOffsets(data[|data| - 1])
  }

  lemma TotalsOfSnoc(data: seq<MonthlyData>, d: MonthlyData)
    ensures TotalEmissions(data + [d]) == TotalEmissions(data) + CalculateEmissions(d)
    ensures TotalOffsets(data + [d]) == TotalOffsets(data) + CalculateOffsets(d)
  {
    assert (data + [d])[..|data|] == data;
  }

  /** Totals are additive over concatenation, so the order of the records does not matter. */
  lemma {:induction false} TotalsOfConcat(a: seq<MonthlyData>, b: seq<MonthlyData>)
    ensures TotalEmissions(a + b) == TotalEmissions(a) + TotalEmissions(b)
    ensures TotalOffsets(a + b) == TotalOffsets(a) + TotalOffsets(b)
    decreases |b|
  {
    if b == [] {
      assert a + b == a;
    } else {
      var init, last := b[..|b| - 1], b[|b| - 1];
      assert a + b == (a + init) + [last];
      TotalsOfConcat(a, init);
      TotalsOfSnoc(a + init, last);
      TotalsOfSnoc(init, last);
      assert init + [last] == b;
    }
  }

  lemma {:induction false} TotalsNonNegative(data: seq<MonthlyData>)
    requires AllNonNegative(data)
    ensures TotalEmissions(data) >= 0.0 && TotalOffsets(data) >= 0.0
  {
    if data != [] {
      TotalsNonNegative(data[..|data| - 1]);
      assert IsNonNegative(data[|data| - 1]);
    }
  }

  method GetCarbonMetrics(data: seq<MonthlyData>) returns (m: CarbonMetrics)
    ensures m.totalEmissions == Round2(TotalEmissions(data))
    ensures m.totalOffsets == Round2(TotalOffsets(data))
    ensures m.netFootprint == Round2(TotalEmissions(data) - TotalOffsets(data))
    ensures m.isNeutral <==> TotalEmissions(data) <= TotalOffsets(data)
    ensures data == [] ==> m == CarbonMetrics(0.0, 0.0, 0.0, true)
  {
    var totalEmissions, totalOffsets := 0.0, 0.0;
    for i := 0 to |data|
      invariant totalEmissions == TotalEmissions(data[..i])
      invariant totalOffsets == TotalOffsets(data[..i])
    {
      assert data[..i + 1][..i] == data[..i];
      totalEmissions := totalEmissions + CalculateEmissions(data[i]);
      totalOffsets := totalOffsets + CalculateOffsets(data[i]);
    }
    assert data[..|data|] == data;
    var netFootprint := CalculateNetFootprint(totalEmissions, totalOffsets);
    var isNeutral := netFootprint <= 0.0;
    if data == [] {
      Round2OfCents(0);
    }
    m := CarbonMetrics(Round2(totalEmissions), Round2(totalOffsets), Round2(netFootprint), isNeutral);
  }

  /** A record of 8 g of waste and nothing else. */
  const EightGramsOfWaste: MonthlyData := ZeroRecord("r", "u", "Jan", 2024).(wasteKg := 0.008)

  /** Neutrality is decided on the unrounded net: 8 g of waste emit 0.004 kg,
      which rounds to a net of 0.00 and yet is not neutral. */
  lemma NeutralityIsDecidedBeforeRounding()
    ensures TotalEmissions([EightGramsOfWaste]) == 0.004 && TotalOffsets([EightGramsOfWaste]) == 0.0
    ensures Round2(TotalEmissions([EightGramsOfWaste]) - TotalOffsets([EightGramsOfWaste])) == 0.0
    ensures !(TotalEmissions([EightGramsOfWaste]) <= TotalOffsets([EightGramsOfWaste]))
  {
    var d := EightGramsOfWaste;
    assert [d][..0] == [];
    assert (0.004 * 100.0 + 0.5).Floor == 0;
  }

  // ---------------------------------------------------------------------
  // Sector breakdown

  /** The five emission sources, in the order of the breakdown. */
  datatype Source = Electricity | Diesel | Petrol | Waste | Water

  const Sources: seq<Source> := [Electricity, Diesel, Petrol, Waste, Water]

  function SourceName(s: Source): string
  {
    match s
    case Electricity => "Electricity"
    case Diesel => "Diesel"
    case Petrol => "Petrol"
    case Waste => "Waste"
    case Water => "Water"
  }

  function SourceColor(s: Source): string
  {
    match s
    case Electricity => "hsl(152, 45%, 28%)"
    case Diesel => "hsl(38, 92%, 50%)"
    case Petrol => "hsl(0, 65%, 50%)"
    case Waste => "hsl(270, 50%, 50%)"
    case Water => "hsl(200, 80%, 50%)"
  }

  /** The quantity of one source times its factor. */
  function SourceEmission(d: MonthlyData, s: Source): real
  {
    match s
    case Electricity => d.electricityKwh * StandardEmissionFactors.electricity
    case Diesel => d.dieselLiters * StandardEmissionFactors.diesel
    case Petrol => d.petrolLiters * StandardEmissionFactors.petrol
    case Waste => d.wasteKg * StandardEmissionFactors.waste
    case Water => d.waterLiters * StandardEmissionFactors.water
  }

  /** The running total of one sector's accumulator. */
  function SectorTotal(data: seq<MonthlyData>, s: Source): real
  {
    if data == [] then 0.0
    else SectorTotal(data[..|data| - 1], s) + SourceEmission(data[|data| - 1], s)
  }

  /** `electricity + diesel + petrol + waste + water`. */
  function AllSectorsTotal(data: seq<MonthlyData>): real
  {
    SectorTotal(data, Electricity) + SectorTotal(data, Diesel) + SectorTotal(data, Petrol)
    + SectorTotal(data, Waste) + SectorTotal(data, Water)
  }

  /** `(emission / total) * 100`, before rounding. */
  function RawPercentage(data: seq<MonthlyData>, s: Source): real
    requires AllSectorsTotal(data) != 0.0
  {
    (SectorTotal(data, s) / AllSectorsTotal(data)) * 100.0
  }

  /** The reported entry of one sector: emission and percentage rounded to cents. */
  function ReportedSector(data: seq<MonthlyData>, s: Source): SectorEmission
  {
    var total := AllSectorsTotal(data);
    SectorEmission(
      SourceName(s),
      Round2(SectorTotal(data, s)),
      if total == 0.0 then Undefined else Percent(Round2(RawPercentage(data, s))),
      SourceColor(s))
  }

  method GetSectorEmissions(data: seq<MonthlyData>) returns (sectors: seq<SectorEmission>)
    ensures |sectors| == 5
    ensures forall i :: 0 <= i < 5 ==> sectors[i] == ReportedSector(data, Sources[i])
  {
    var electricity, diesel, petrol, waste, water := 0.0, 0.0, 0.0, 0.0, 0.0;
    for i := 0 to |data|
      invariant electricity == SectorTotal(data[..i], Electricity)
      invariant diesel == SectorTotal(data[..i], Diesel)
      invariant petrol == SectorTotal(data[..i], Petrol)
      invariant waste == SectorTotal(data[..i], Waste)
      invariant water == SectorTotal(data[..i], Water)
    {
      var entry := data[i];
      assert data[..i + 1][..i] == data[..i];
      electricity := electricity + entry.electricityKwh * StandardEmissionFactors.electricity;
      diesel := diesel + entry.dieselLiters * StandardEmissionFactors.diesel;
      petrol := petrol + entry.petrolLiters * StandardEmissionFactors.petrol;
      waste := waste + entry.wasteKg * StandardEmissionFactors.waste;
      water := water + entry.waterLiters * StandardEmissionFactors.water;
    }
    assert data[..|data|] == data;
    var total := electricity + diesel + petrol + waste + water;
    var raw := [electricity, diesel, petrol, waste, water];
    sectors := [];
    for i := 0 to 5
      invariant |sectors| == i
      invariant forall j :: 0 <= j < i ==> sectors[j] == ReportedSector(data, Sources[j])
    {
      var pct := if total == 0.0 then Undefined else Percent(Round2((raw[i] / total) * 100.0));
      sectors := sectors + [SectorEmission(SourceName(Sources[i]), Round2(raw[i]), pct, SourceColor(Sources[i]))];
    }
  }

  lemma {:induction false} SectorsPartitionEmissions(data: seq<MonthlyData>)
    ensures AllSectorsTotal(data) == TotalEmissions(data)
  {
    if data != [] {
      SectorsPartitionEmissions(data[..|data| - 1]);
    }
  }

  /** When the total is not zero the unrounded percentages add up to 100. */
  lemma PercentagesSumTo100(data: seq<MonthlyData>)
    requires AllSectorsTotal(data) != 0.0
    ensures RawPercentage(data, Electricity) + RawPercentage(data, Diesel) + RawPercentage(data, Petrol)
          + RawPercentage(data, Waste) + RawPercentage(data, Water) == 100.0
  {
    var t := AllSectorsTotal(data);
    var e, d, p, w, wa := SectorTotal(data, Electricity), SectorTotal(data, Diesel),
      SectorTotal(data, Petrol), SectorTotal(data, Waste), SectorTotal(data, Water);
    assert e / t + d / t + p / t + w / t + wa / t == (e + d + p + w + wa) / t;
  }

  lemma {:induction false} SectorTotalNonNegative(data: seq<MonthlyData>, s: Source)
    requires AllNonNegative(data)
    ensures SectorTotal(data, s) >= 0.0
  {
    if data != [] {
      SectorTotalNonNegative(data[..|data| - 1], s);
      assert IsNonNegative(data[|data| - 1]);
    }
  }

  /** For non-negative data with a positive total, each share lies between 0 and 100. */
  lemma PercentageBounds(data: seq<MonthlyData>, s: Source)
    requires AllNonNegative(data) && AllSectorsTotal(data) > 0.0
    ensures 0.0 <= RawPercentage(data, s) <= 100.0
  {
    SectorTotalNonNegative(data, Electricity);
    SectorTotalNonNegative(data, Diesel);
    SectorTotalNonNegative(data, Petrol);
    SectorTotalNonNegative(data, Waste);
    SectorTotalNonNegative(data, Water);
    ShareBounds(SectorTotal(data, s), AllSectorsTotal(data));
  }

  /** With no data, or data whose sectors add up to zero, every percentage is the
      result of a division by zero. */
  lemma EmptyDataHasUndefinedPercentages(s: Source)
    ensures ReportedSector([], s).percentage == Undefined
  {
  }

  // ---------------------------------------------------------------------
  // Monthly trends

  const MonthOrder: seq<string> := ["Jan", "Feb", "Mar", "Apr", "May", "Jun", "Jul", "Aug", "Sep", "Oct", "Nov", "Dec"]

  /** `monthOrder.indexOf(month)`: the first position, or -1 when absent. */
  function MonthIndex(month: string): (i: int)
    ensures -1 <= i < |MonthOrder|
    ensures i >= 0 ==> MonthOrder[i] == month && forall j :: 0 <= j < i ==> MonthOrder[j] != month
    ensures i == -1 <==> month !in MonthOrder
  {
    IndexIn(MonthOrder, month)
  }

  function IndexIn(s: seq<string>, x: string): (i: int)
    ensures -1 <= i < |s|
    ensures i >= 0 ==> s[i] == x && forall j :: 0 <= j < i ==> s[j] != x
    ensures i == -1 <==> x !in s
  {
    if s == [] then -1
    else if s[0] == x then 0
    else
      var k := IndexIn(s[1..], x);
      assert x in s[1..] ==> x in s;
      if k == -1 then -1 else k + 1
  }

  /** The map key `${entry.month}-${entry.year}`. */
  function TrendKey(d: MonthlyData): string
  {
    d.month + "-" + Strings.IntToString(d.year)
  }

  /** The keys of the trend map, in the order they were first inserted. */
  function KeysInOrder(data: seq<MonthlyData>): seq<string>
  {
    Grouping.KeysInOrder(data, TrendKey)
  }

  /** The records filed under key k, in input order. */
  function Group(data: seq<MonthlyData>, k: string): seq<MonthlyData>
  {
    Grouping.Group(data, k, TrendKey)
  }

  /** The map entry of key k once every record has been folded in: the month of
      the record that created it, and the sums of its records. */
  function TrendFor(data: seq<MonthlyData>, k: string): MonthlyTrend
  {
    var g := Group(data, k);
    MonthlyTrend(
      if g == [] then "" else g[0].month,
      TotalEmissions(g),
      TotalOffsets(g),
      TotalEmissions(g) - TotalOffsets(g))
  }

  /** The entries of the given keys, in the keys' order. */
  function TrendsOver(data: seq<MonthlyData>, keys: seq<string>): (ts: seq<MonthlyTrend>)
    ensures |ts| == |keys|
    ensures forall j :: 0 <= j < |keys| ==> ts[j] == TrendFor(data, keys[j])
  {
    if keys == [] then [] else [TrendFor(data, keys[0])] + TrendsOver(data, keys[1..])
  }

  function MonthKey(t: MonthlyTrend): real
  {
    MonthIndex(t.month) as real
  }

  function TrendEmissions(t: MonthlyTrend): real
  {
    t.emissions
  }

  function RoundTrend(t: MonthlyTrend): MonthlyTrend
  {
    MonthlyTrend(t.month, Round2(t.emissions), Round2(t.offsets), Round2(t.net))
  }

  /** The map's entries sorted (stably) by calendar position, before rounding. */
  function SortedTrends(data: seq<MonthlyData>): seq<MonthlyTrend>
  {
    SortBy(TrendsOver(data, KeysInOrder(data)), MonthKey)
  }

  /** What `getMonthlyTrends` returns. */
  function MonthlyTrends(data: seq<MonthlyData>): (ts: seq<MonthlyTrend>)
    ensures |ts| == |KeysInOrder(data)|
  {
    var sorted := SortedTrends(data);
    seq(|sorted|, i requires 0 <= i < |sorted| => RoundTrend(sorted[i]))
  }

  /** With month names free of '-', two records share a key exactly when they
      share month and year. */
  lemma TrendKeyInjective(a: MonthlyData, b: MonthlyData)
    requires '-' !in a.month && '-' !in b.month
    ensures TrendKey(a) == TrendKey(b) <==> a.month == b.month && a.year == b.year
  {
    if TrendKey(a) == TrendKey(b) {
      Strings.SplitAfterPrefix(a.month, '-', Strings.IntToString(a.year));
      Strings.SplitAfterPrefix(b.month, '-', Strings.IntToString(b.year));
      assert a.month + "-" + Strings.IntToString(a.year) == a.month + ['-'] + Strings.IntToString(a.year);
      assert b.month + "-" + Strings.IntToString(b.year) == b.month + ['-'] + Strings.IntToString(b.year);
      var sa := Strings.Split(TrendKey(a), '-');
      assert a.month == sa[0] == b.month;
      assert |a.month| == |b.month|;
      assert Strings.IntToString(a.year) == TrendKey(a)[|a.month| + 1..];
      assert Strings.IntToString(b.year) == TrendKey(b)[|b.month| + 1..];
      Strings.IntToStringInjective(a.year, b.year);
    }
  }

  /** The trend map and its insertion order after folding in the records of prefix. */
  ghost predicate MapModels(trendMap: map<string, MonthlyTrend>, order: seq<string>, prefix: seq<MonthlyData>)
  {
    && order == KeysInOrder(prefix)
    && (forall k :: k in trendMap <==> k in order)
    && (forall k :: k in trendMap ==> trendMap[k] == TrendFor(prefix, k))
  }

  lemma TrendForSnocOther(prefix: seq<MonthlyData>, entry: MonthlyData, k: string)
    requires TrendKey(entry) != k
    ensures TrendFor(prefix + [entry], k) == TrendFor(prefix, k)
  {
    Grouping.GroupOfSnoc(prefix, entry, k, TrendKey);
    assert Group(prefix + [entry], k) == Group(prefix, k);
  }

  /** Folding in the first record of key k creates its entry from that record. */
  lemma TrendForSnocNew(prefix: seq<MonthlyData>, entry: MonthlyData, k: string)
    requires TrendKey(entry) == k && k !in KeysInOrder(prefix)
    ensures TrendFor(prefix + [entry], k)
         == MonthlyTrend(entry.month, CalculateEmissions(entry), CalculateOffsets(entry),
                         CalculateEmissions(entry) - CalculateOffsets(entry))
  {
    Grouping.GroupOfSnoc(prefix, entry, k, TrendKey);
    Grouping.GroupEmptyIffAbsent(prefix, k, TrendKey);
    assert Group(prefix + [entry], k) == [entry];
    TotalsOfSnoc([], entry);
  }

  /** Folding in a further record of key k adds its emissions and offsets to the entry. */
  lemma TrendForSnocExisting(prefix: seq<MonthlyData>, entry: MonthlyData, k: string,
                             existing: MonthlyTrend, e: real, o: real)
    requires TrendKey(entry) == k && k in KeysInOrder(prefix)
    requires existing == TrendFor(prefix, k)
    requires e == existing.emissions + CalculateEmissions(entry) && o == existing.offsets + CalculateOffsets(entry)
    ensures TrendFor(prefix + [entry], k) == MonthlyTrend(existing.month, e, o, e - o)
  {
    Grouping.GroupOfSnoc(prefix, entry, k, TrendKey);
    Grouping.GroupEmptyIffAbsent(prefix, k, TrendKey);
    var g := Group(prefix, k);
    assert Group(prefix + [entry], k) == g + [entry];
    assert (g + [entry])[0] == g[0];
    TotalsOfSnoc(g, entry);
  }

  lemma TrendEmissionsOfSnoc(prefix: seq<MonthlyData>, entry: MonthlyData, k: string)
    ensures TrendFor(prefix + [entry], k).emissions
         == TrendFor(prefix, k).emissions + (if TrendKey(entry) == k then CalculateEmissions(entry) else 0.0)
  {
    if TrendKey(entry) != k {
      TrendForSnocOther(prefix, entry, k);
    } else if k in KeysInOrder(prefix) {
      var existing := TrendFor(prefix, k);
      TrendForSnocExisting(prefix, entry, k, existing,
                           existing.emissions + CalculateEmissions(entry), existing.offsets + CalculateOffsets(entry));
    } else {
      TrendForSnocNew(prefix, entry, k);
      Grouping.GroupEmptyIffAbsent(prefix, k, TrendKey);
    }
  }

  /** Folding in a record whose key is new creates its entry. */
  lemma InsertNewKey(trendMap: map<string, MonthlyTrend>, order: seq<string>, prefix: seq<MonthlyData>, entry: MonthlyData,
                     e: real, o: real)
    requires MapModels(trendMap, order, prefix) && TrendKey(entry) !in trendMap
    requires e == CalculateEmissions(entry) && o == CalculateOffsets(entry)
    ensures MapModels(trendMap[TrendKey(entry) := MonthlyTrend(entry.month, e, o, e - o)], order + [TrendKey(entry)], prefix + [entry])
  {
    var key := TrendKey(entry);
    assert key !in KeysInOrder(prefix);
    assert KeysInOrder(prefix + [entry]) == order + [key] by {
      Grouping.KeysInOrderOfSnoc(prefix, entry, TrendKey);
    }
    NewEntries(trendMap, prefix, entry, key, e, o);
  }

  lemma NewEntries(trendMap: map<string, MonthlyTrend>, prefix: seq<MonthlyData>, entry: MonthlyData,
                   key: string, e: real, o: real)
    requires forall k :: k in trendMap ==> trendMap[k] == TrendFor(prefix, k)
    requires key == TrendKey(entry) && key !in KeysInOrder(prefix)
    requires e == CalculateEmissions(entry) && o == CalculateOffsets(entry)
    ensures forall k :: k in trendMap[key := MonthlyTrend(entry.month, e, o, e - o)] ==>
      trendMap[key := MonthlyTrend(entry.month, e, o, e - o)][k] == TrendFor(prefix + [entry], k)
  {
    var after := trendMap[key := MonthlyTrend(entry.month, e, o, e - o)];
    forall k | k in after ensures after[k] == TrendFor(prefix + [entry], k) {
      if k == key {
        TrendForSnocNew(prefix, entry, k);
      } else {
        assert after[k] == TrendFor(prefix, k);
        TrendForSnocOther(prefix, entry, k);
      }
    }
  }

  /** Folding in a record whose key is present adds to that entry alone. */
  lemma UpdateKey(trendMap: map<string, MonthlyTrend>, order: seq<string>, prefix: seq<MonthlyData>, entry: MonthlyData,
                  existing: MonthlyTrend, e: real, o: real)
    requires MapModels(trendMap, order, prefix) && TrendKey(entry) in trendMap
    requires existing == trendMap[TrendKey(entry)]
    requires e == existing.emissions + CalculateEmissions(entry) && o == existing.offsets + CalculateOffsets(entry)
    ensures MapModels(trendMap[TrendKey(entry) := MonthlyTrend(existing.month, e, o, e - o)], order, prefix + [entry])
  {
    var key := TrendKey(entry);
    assert key in KeysInOrder(prefix);
    assert KeysInOrder(prefix + [entry]) == order by {
      Grouping.KeysInOrderOfSnoc(prefix, entry, TrendKey);
    }
    UpdatedEntries(trendMap, prefix, entry, key, existing, e, o);
  }

  lemma UpdatedEntries(trendMap: map<string, MonthlyTrend>, prefix: seq<MonthlyData>, entry: MonthlyData,
                       key: string, existing: MonthlyTrend, e: real, o: real)
    requires forall k :: k in trendMap ==> trendMap[k] == TrendFor(prefix, k)
    requires key == TrendKey(entry) && key in KeysInOrder(prefix) && existing == TrendFor(prefix, key)
    requires e == existing.emissions + CalculateEmissions(entry) && o == existing.offsets + CalculateOffsets(entry)
    ensures forall k :: k in trendMap[key := MonthlyTrend(existing.month, e, o, e - o)] ==>
      trendMap[key := MonthlyTrend(existing.month, e, o, e - o)][k] == TrendFor(prefix + [entry], k)
  {
    var after := trendMap[key := MonthlyTrend(existing.month, e, o, e - o)];
    forall k | k in after ensures after[k] == TrendFor(prefix + [entry], k) {
      if k == key {
        TrendForSnocExisting(prefix, entry, key, existing, e, o);
      } else {
        assert after[k] == TrendFor(prefix, k);
        TrendForSnocOther(prefix, entry, k);
      }
    }
  }

  /** The map's values, read in insertion order, are the entries of its keys. */
  lemma MapValuesInOrder(trendMap: map<string, MonthlyTrend>, order: seq<string>, data: seq<MonthlyData>,
                         values: seq<MonthlyTrend>)
    requires MapModels(trendMap, order, data)
    requires |values| == |order| && forall j :: 0 <= j < |order| ==> values[j] == trendMap[order[j]]
    ensures values == TrendsOver(data, KeysInOrder(data))
  {
  }

  /** One pass of the grouping loop: the record's emissions and offsets are
      added to its key's entry, which its key's first record creates. */
  method FileRecord(trendMap: map<string, MonthlyTrend>, order: seq<string>, ghost prefix: seq<MonthlyData>, entry: MonthlyData)
    returns (newMap: map<string, MonthlyTrend>, newOrder: seq<string>)
    requires MapModels(trendMap, order, prefix)
    ensures MapModels(newMap, newOrder, prefix + [entry])
  {
    var key := TrendKey(entry);
    var emissions := CalculateEmissions(entry);
    var offsets := CalculateOffsets(entry);
    if key in trendMap {
      var existing := trendMap[key];
      var emissionsSum := existing.emissions + emissions;
      var offsetsSum := existing.offsets + offsets;
      UpdateKey(trendMap, order, prefix, entry, existing, emissionsSum, offsetsSum);
      newMap := trendMap[key := MonthlyTrend(existing.month, emissionsSum, offsetsSum, emissionsSum - offsetsSum)];
      newOrder := order;
    } else {
      InsertNewKey(trendMap, order, prefix, entry, emissions, offsets);
      newMap := trendMap[key := MonthlyTrend(entry.month, emissions, offsets, emissions - offsets)];
      newOrder := order + [key];
    }
  }

  method GetMonthlyTrends(data: seq<MonthlyData>) returns (trends: seq<MonthlyTrend>)
    ensures trends == MonthlyTrends(data)
  {
    var order: seq<string> := [];
    var trendMap: map<string, MonthlyTrend> := map[];
    for i := 0 to |data|
      invariant MapModels(trendMap, order, data[..i])
    {
      assert data[..i + 1] == data[..i] + [data[i]];
      trendMap, order := FileRecord(trendMap, order, data[..i], data[i]);
    }
    assert data[..|data|] == data;
    var values := seq(|order|, j requires 0 <= j < |order| => trendMap[order[j]]);
    MapValuesInOrder(trendMap, order, data, values);
    var sorted := SortBy(values, MonthKey);
    assert sorted == SortedTrends(data);
    trends := seq(|sorted|, j requires 0 <= j < |sorted| => RoundTrend(sorted[j]));
  }

  /** The trends come out in calendar order (unknown month names, at -1, first). */
  lemma TrendsInCalendarOrder(data: seq<MonthlyData>)
    ensures forall i, j :: 0 <= i < j < |MonthlyTrends(data)| ==>
      MonthIndex(MonthlyTrends(data)[i].month) <= MonthIndex(MonthlyTrends(data)[j].month)
  {
    SortByIsSorted(TrendsOver(data, KeysInOrder(data)), MonthKey);
    var sorted := SortedTrends(data);
    forall i, j | 0 <= i < j < |MonthlyTrends(data)|
      ensures MonthIndex(MonthlyTrends(data)[i].month) <= MonthIndex(MonthlyTrends(data)[j].month)
    {
      assert MonthKey(sorted[i]) <= MonthKey(sorted[j]);
    }
  }

  /** Before rounding, the trends are exactly the per-key entries, rearranged:
      one per distinct key, each carrying its group's sums and net. */
  lemma TrendsArePerKeyEntries(data: seq<MonthlyData>)
    ensures multiset(SortedTrends(data)) == multiset(TrendsOver(data, KeysInOrder(data)))
    ensures forall t :: t in SortedTrends(data) ==> t.net == t.emissions - t.offsets
  {
    var unsorted := TrendsOver(data, KeysInOrder(data));
    forall t | t in SortedTrends(data) ensures t.net == t.emissions - t.offsets {
      assert t in multiset(unsorted);
      var j :| 0 <= j < |unsorted| && unsorted[j] == t;
    }
  }

  /** Entries of the same month (from different years) keep their first-seen order. */
  lemma SameMonthKeepsInsertionOrder(data: seq<MonthlyData>, v: real)
    ensures WithKey(SortedTrends(data), MonthKey, v) == WithKey(TrendsOver(data, KeysInOrder(data)), MonthKey, v)
  {
    SortByIsStable(TrendsOver(data, KeysInOrder(data)), MonthKey, v);
  }

  lemma SumOverCons(data: seq<MonthlyData>, keys: seq<string>)
    requires keys != []
    ensures SumBy(TrendsOver(data, keys), TrendEmissions)
         == TrendFor(data, keys[0]).emissions + SumBy(TrendsOver(data, keys[1..]), TrendEmissions)
  {
    var ts := TrendsOver(data, keys);
    assert ts[1..] == TrendsOver(data, keys[1..]);
  }

  lemma {:induction false} SumOverSnoc(data: seq<MonthlyData>, d: MonthlyData, keys: seq<string>)
    requires Strings.NoDuplicates(keys)
    ensures SumBy(TrendsOver(data + [d], keys), TrendEmissions)
         == SumBy(TrendsOver(data, keys), TrendEmissions) + (if TrendKey(d) in keys then CalculateEmissions(d) else 0.0)
  {
    if keys != [] {
      var k, rest := keys[0], keys[1..];
      assert Strings.NoDuplicates(rest);
      SumOverCons(data + [d], keys);
      SumOverCons(data, keys);
      TrendEmissionsOfSnoc(data, d, k);
      SumOverSnoc(data, d, rest);
      assert TrendKey(d) in keys <==> TrendKey(d) == k || TrendKey(d) in rest;
      assert TrendKey(d) == k ==> TrendKey(d) !in rest;
    }
  }

  lemma {:induction false} SumOverCoveringKeys(data: seq<MonthlyData>, keys: seq<string>)
    requires Strings.NoDuplicates(keys)
    requires forall i :: 0 <= i < |data| ==> TrendKey(data[i]) in keys
    ensures SumBy(TrendsOver(data, keys), TrendEmissions) == TotalEmissions(data)
  {
    if data == [] {
      ZeroSums(keys);
    } else {
      var init, last := data[..|data| - 1], data[|data| - 1];
      SumOverCoveringKeys(init, keys);
      CoveredSnoc(init, last, keys);
      Grouping.FrontAndLast(data);
    }
  }

  /** One more record whose key is among the keys adds its emissions to both sides. */
  lemma CoveredSnoc(data: seq<MonthlyData>, d: MonthlyData, keys: seq<string>)
    requires Strings.NoDuplicates(keys) && TrendKey(d) in keys
    requires SumBy(TrendsOver(data, keys), TrendEmissions) == TotalEmissions(data)
    ensures SumBy(TrendsOver(data + [d], keys), TrendEmissions) == TotalEmissions(data + [d])
  {
    SumOverSnoc(data, d, keys);
    assert (data + [d])[..|data|] == data;
  }

  lemma {:induction false} ZeroSums(keys: seq<string>)
    ensures SumBy(TrendsOver([], keys), TrendEmissions) == 0.0
  {
    if keys != [] {
      ZeroSums(keys[1..]);
    }
  }

  /** The unrounded trend emissions add up to the total of the aggregate metrics. */
  lemma TrendsPartitionEmissions(data: seq<MonthlyData>)
    ensures SumBy(SortedTrends(data), TrendEmissions) == TotalEmissions(data)
  {
    Grouping.KeysInOrderAreTheDistinctKeys(data, TrendKey);
    SumOverCoveringKeys(data, KeysInOrder(data));
    SumBySort(TrendsOver(data, KeysInOrder(data)), MonthKey, TrendEmissions);
  }
}

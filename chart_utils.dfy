/** The pure helpers of the chart utilities: `calculateVariation`,
    `calculateAverage`, `filterByDateRange` and the KPI summary
    `processMainBDData`. */
module ChartUtils {
  import opened Wrappers
  import opened Seqs
  import opened ChartRows

  // ---------------------------------------------------------- calculateVariation

  /** `calculateVariation(current, previous)`: the change from `previous` to
      `current` in percent of `previous`; a missing or zero `previous` gives 0. */
  function CalculateVariation(current: real, previous: Option<real>): (v: real)
    ensures previous.None? || previous == Some(0.0) ==> v == 0.0
    ensures previous == Some(current) ==> v == 0.0
    ensures previous.Some? && previous.value != 0.0 ==>
      previous.value + previous.value * v / 100.0 == current
  {
    if previous.None? || previous.value == 0.0 then 0.0
    else (current - previous.value) / previous.value * 100.0
  }

  /** From a positive `previous`, the variation is positive exactly when the value went up,
      and negative exactly when it went down. */
  lemma VariationSign(current: real, previous: real)
    requires previous > 0.0
    ensures CalculateVariation(current, Some(previous)) > 0.0 <==> current > previous
    ensures CalculateVariation(current, Some(previous)) < 0.0 <==> current < previous
  {
    var v := CalculateVariation(current, Some(previous));
    assert previous * v / 100.0 == current - previous;
    if v > 0.0 {
      assert previous * v > 0.0;
    } else if v < 0.0 {
      assert previous * v < 0.0;
    } else {
      assert previous * v == 0.0;
    }
  }

  // ------------------------------------------------------------ calculateAverage

  /** `calculateAverage(values)`: the mean; a missing or empty array gives 0. */
  function CalculateAverage(values: Option<seq<real>>): (a: real)
    ensures values.None? || values == Some([]) ==> a == 0.0
    ensures values.Some? && values.value != [] ==> a * |values.value| as real == Sum(values.value)
  {
    if values.None? || |values.value| == 0 then 0.0
    else Sum(values.value) / |values.value| as real
  }

  /** The mean of values that all lie between `lo` and `hi` lies between them too. */
  lemma AverageBounds(values: seq<real>, lo: real, hi: real)
    requires values != []
    requires forall i :: 0 <= i < |values| ==> lo <= values[i] <= hi
    ensures lo <= CalculateAverage(Some(values)) <= hi
  {
    var n := |values| as real;
    var a := CalculateAverage(Some(values));
    SumBounds(values, lo, hi);
    assert (a - lo) * n == Sum(values) - lo * n >= 0.0;
    assert (hi - a) * n == hi * n - Sum(values) >= 0.0;
  }

  // ----------------------------------------------------------- filterByDateRange

  /** `new Date(t) >= startDate && new Date(t) <= endDate` for the time value of
      `new Date(t)`; an Invalid Date is `None` and compares false both ways. */
  predicate InDateRange(time: Option<real>, startDate: real, endDate: real)
  {
    time.Some? && startDate <= time.value <= endDate
  }

  /** The filter callback of `filterByDateRange`, given how an item's date field
      reads as a time value. */
  function InRangeOf<T>(date: T -> Option<real>, startDate: real, endDate: real): T -> bool
  {
    (item: T) => InDateRange(date(item), startDate, endDate)
  }

  /** `filterByDateRange(data, dateField, startDate, endDate)`: the items whose date
      lies in the closed range, in input order. */
  function FilterByDateRange<T>(data: seq<T>, date: T -> Option<real>, startDate: real, endDate: real): (r: seq<T>)
    ensures forall x :: x in r ==> x in data && InDateRange(date(x), startDate, endDate)
    ensures forall x :: x in data && InDateRange(date(x), startDate, endDate) ==> x in r
  {
    Filter(data, InRangeOf(date, startDate, endDate))
  }

  /** Filtering by date range keeps the input order: it distributes over concatenation,
      and keeps every item of a sequence whose dates all lie in the range. */
  lemma DateRangeKeepsOrder<T>(a: seq<T>, b: seq<T>, date: T -> Option<real>, startDate: real, endDate: real)
    ensures FilterByDateRange(a + b, date, startDate, endDate)
      == FilterByDateRange(a, date, startDate, endDate) + FilterByDateRange(b, date, startDate, endDate)
    ensures (forall x :: x in a ==> InDateRange(date(x), startDate, endDate)) ==>
      FilterByDateRange(a, date, startDate, endDate) == a
  {
    FilterConcat(a, b, InRangeOf(date, startDate, endDate));
    if forall x :: x in a ==> InDateRange(date(x), startDate, endDate) {
      FilterAll(a, InRangeOf(date, startDate, endDate));
    }
  }

  // ----------------------------------------------------------- processMainBDData

  /** The object `processMainBDData` returns. */
  datatype Kpis = Kpis(
    postes: real,
    cavas: real,
    clientes: real,
    obrasEnergizadas: nat,
    totalObras: nat,
    faturamento: real,
    cavasPorRetro: real,
    mediaPostesPorEquipe: real,
    mediaCavasPorEquipe: real,
    totalEquipes: nat)

  /** The row has a truthy `data_energ` cell. */
  predicate HasEnerg(r: Row)
  {
    Truthy(r.dataEnerg)
  }

  /** The row has a truthy `des_equipe` cell. */
  predicate HasTeam(r: Row)
  {
    Truthy(r.desEquipe)
  }

  /** `row["SS/OT"]` as it is: missing, empty or a work-order number. */
  function SsotCell(r: Row): Option<string>
  {
    r.ssOt
  }

  /** `parseFloat(row.clientes_lig || row.clientes) || 0`. */
  function ClientesQty(num: string -> real): Row -> real
  {
    (r: Row) => Number(num, if Truthy(r.clientesLig) then r.clientesLig else r.clientes)
  }

  /** `parseFloat(row.valor_projeto) || 0`. */
  function ProjectValue(num: string -> real): Row -> real
  {
    (r: Row) => Number(num, r.valorProjeto)
  }

  /** `parseFloat(row.valor_mao) || 0`. */
  function LabourValue(num: string -> real): Row -> real
  {
    (r: Row) => Number(num, r.valorMao)
  }

  /** What one row adds to `faturamento`. */
  function Revenue(num: string -> real): Row -> real
  {
    (r: Row) => ProjectValue(num)(r) + LabourValue(num)(r)
  }

  /** `new Set(rows with data_energ .map(row => row["SS/OT"]))`: every cell value,
      the missing and the empty one included. */
  function EnergizedSsots(data: seq<Row>): set<Option<string>>
  {
    Elements(Map(Filter(data, HasEnerg), SsotCell))
  }

  /** The truthy `SS/OT` values of `data`, in row order. */
  function SsotList(data: seq<Row>): seq<string>
  {
    Map(Filter(data, HasSsot), SsotOf)
  }

  /** The distinct truthy `des_equipe` values of `data`. */
  function TeamSet(data: seq<Row>): set<string>
  {
    Elements(Map(Filter(data, HasTeam), Team))
  }

  /** `equipes > 0 ? total / equipes : 0`: the share of each team, or 0 with no team. */
  function PerTeam(total: real, equipes: nat): (m: real)
    ensures equipes == 0 ==> m == 0.0
    ensures equipes > 0 ==> m * equipes as real == total
  {
    if equipes > 0 then total / equipes as real else 0.0
  }

  /** `processMainBDData(data)`, with `parseFloat(x) || 0` left abstract as `num`:
      the team count is the number of distinct truthy teams, each average is its
      total shared among them (0 with no team), and an empty sheet gives all zeros. */
  function ProcessMainBDData(num: string -> real, data: seq<Row>): (k: Kpis)
    ensures k.totalEquipes == |TeamSet(data)|
    ensures k.totalEquipes == 0 ==> k.mediaPostesPorEquipe == 0.0 && k.mediaCavasPorEquipe == 0.0
    ensures k.totalEquipes > 0 ==>
      k.mediaPostesPorEquipe * k.totalEquipes as real == k.postes
      && k.mediaCavasPorEquipe * k.totalEquipes as real == k.cavas
  {
    var postes := SumBy(Filter(data, IsPoste), Quantity(num));
    var cavas := SumBy(Filter(data, IsCava), Quantity(num));
    var equipes := |TeamSet(data)|;
    Kpis(
      postes := postes,
      cavas := cavas,
      clientes := SumBy(Filter(data, IsClienteTeam), ClientesQty(num)),
      obrasEnergizadas := |EnergizedSsots(data)|,
      totalObras := |Elements(SsotList(data))|,
      faturamento := SumBy(data, Revenue(num)),
      cavasPorRetro := SumBy(Filter(data, IsRetroCava), Quantity(num)),
      mediaPostesPorEquipe := PerTeam(postes, equipes),
      mediaCavasPorEquipe := PerTeam(cavas, equipes),
      totalEquipes := equipes)
  }

  /** An empty sheet gives zero for every indicator. */
  lemma EmptySheet(num: string -> real)
    ensures ProcessMainBDData(num, []) == Kpis(0.0, 0.0, 0.0, 0, 0, 0.0, 0.0, 0.0, 0.0, 0)
  {
    assert Map(Filter([], HasEnerg), SsotCell) == [];
    assert SsotList([]) == [];
    assert Map(Filter([], HasTeam), Team) == [];
  }

  /** `totalObras` is the number of distinct truthy `SS/OT` values: it is the length of
      their first-occurrence list, at most the number of rows that have one, and equal to
      that number exactly when no two of those rows share a value. */
  lemma TotalObrasIsDistinctCount(num: string -> real, data: seq<Row>)
    ensures ProcessMainBDData(num, data).totalObras == |Dedup(SsotList(data))|
    ensures ProcessMainBDData(num, data).totalObras <= |Filter(data, HasSsot)|
    ensures ProcessMainBDData(num, data).totalObras == |Filter(data, HasSsot)| <==> NoDup(SsotList(data))
  {
    var ss := SsotList(data);
    DedupSpec(ss);
    NoDupIffCard(Dedup(ss));
    NoDupIffCard(ss);
    ElementsBound(ss);
  }

  /** A row without a truthy `SS/OT` changes nothing in `totalObras`. */
  lemma TotalObrasIgnoresRowsWithoutSsot(num: string -> real, data: seq<Row>, r: Row)
    requires !HasSsot(r)
    ensures ProcessMainBDData(num, data + [r]).totalObras == ProcessMainBDData(num, data).totalObras
  {
    FilterConcat(data, [r], HasSsot);
    assert Filter([r], HasSsot) == [];
    assert Filter(data + [r], HasSsot) == Filter(data, HasSsot);
  }

  /** There are no teams exactly when no row has a truthy `des_equipe`. */
  lemma NoTeamsIffNoTeamCells(data: seq<Row>)
    ensures |TeamSet(data)| == 0 <==> forall r :: r in data ==> !HasTeam(r)
  {
    var withTeam := Filter(data, HasTeam);
    var names := Map(withTeam, Team);
    if withTeam == [] {
      assert names == [];
      assert TeamSet(data) == {};
    } else {
      assert names[0] in TeamSet(data);
      assert withTeam[0] in data && HasTeam(withTeam[0]);
    }
  }

  /** Every row counted in `cavasPorRetro` is counted in `cavas`, so with no negative
      quantity `cavasPorRetro` never exceeds `cavas`. */
  lemma RetroWithinCavas(num: string -> real, data: seq<Row>)
    ensures forall r :: r in Filter(data, IsRetroCava) ==> r in Filter(data, IsCava)
    ensures (forall r :: r in data ==> 0.0 <= Quantity(num)(r)) ==>
      ProcessMainBDData(num, data).cavasPorRetro <= ProcessMainBDData(num, data).cavas
  {
    forall r | r in data && IsRetroCava(r) ensures IsCava(r) {
      RetroRowsAreCavaRows(r);
    }
    if forall r :: r in data ==> 0.0 <= Quantity(num)(r) {
      SumByFilterMonotone(data, IsRetroCava, IsCava, Quantity(num));
    }
  }

  /** `faturamento` is the total project value plus the total labour value. */
  lemma FaturamentoSplits(num: string -> real, data: seq<Row>)
    ensures ProcessMainBDData(num, data).faturamento
      == SumBy(data, ProjectValue(num)) + SumBy(data, LabourValue(num))
  {
    SumByAdd(data, ProjectValue(num), LabourValue(num), Revenue(num));
  }

  // ------------------------------------------- obrasEnergizadas against totalObras

  /** As written, one energised row without an `SS/OT` puts the missing value into the
      set, so there is one energised work order and no work order at all. */
  lemma EnergizedCanExceedTotal(num: string -> real)
    ensures var r := Row(None, None, None, None, None, None, Some("01/02/2024"), None, None, None, None);
      var k := ProcessMainBDData(num, [r]);
      k.obrasEnergizadas == 1 && k.totalObras == 0
  {
    var r := Row(None, None, None, None, None, None, Some("01/02/2024"), None, None, None, None);
    assert Filter([r], HasEnerg) == [r];
    var cells: seq<Option<string>> := Map([r], SsotCell);
    assert cells == [None];
    assert Elements(cells) == {None};
    assert Filter([r], HasSsot) == [];
    assert Elements(SsotList([r])) == {};
  }

  /** The evidently intended count: the distinct `SS/OT` values of energised rows that have one. */
  function IntendedObrasEnergizadas(data: seq<Row>): nat
  {
    |Elements(Map(Filter(data, EnergizedObra), SsotOf))|
  }

  /** An energised row that has a truthy `SS/OT`. */
  predicate EnergizedObra(r: Row)
  {
    HasEnerg(r) && HasSsot(r)
  }

  /** The intended count never exceeds `totalObras`: the energised work orders are
      among all work orders. */
  lemma IntendedEnergizedWithinTotal(num: string -> real, data: seq<Row>)
    ensures IntendedObrasEnergizadas(data) <= ProcessMainBDData(num, data).totalObras
  {
    var e := Elements(Map(Filter(data, EnergizedObra), SsotOf));
    var t := Elements(SsotList(data));
    forall x | x in e ensures x in t {
      var es := Map(Filter(data, EnergizedObra), SsotOf);
      var i :| 0 <= i < |es| && es[i] == x;
      var r := Filter(data, EnergizedObra)[i];
      assert r in Filter(data, EnergizedObra);
      assert r in Filter(data, HasSsot);
      var f := Filter(data, HasSsot);
      var j :| 0 <= j < |f| && f[j] == r;
      assert SsotList(data)[j] == x;
    }
    SubsetCard(e, t);
  }
}

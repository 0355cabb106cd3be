/** The obras page (frontend/src/pages/Obras.js): the day's list, the status pill
    colour, the summary cards and the table's fallbacks, over the obras the
    backend serves. */
module ObrasPage {
  import opened Seqs
  import Backend

  type Obra = Backend.Obra

  /** `obra.status === 'Em Andamento'`. */
  predicate IsEmAndamento(o: Obra)
  {
    o.status == Backend.EmAndamento
  }

  /** `filtrarObrasDoDia`: the obras in progress. */
  function ObrasDoDia(obras: seq<Obra>): (r: seq<Obra>)
    ensures forall o :: o in r ==> o in obras && o.status == Backend.EmAndamento
    ensures forall o :: o in obras && o.status == Backend.EmAndamento ==> o in r
  {
    Filter(obras, IsEmAndamento)
  }

  /** The day's list keeps the page's order: the list of a concatenation is the
      concatenation of the lists. */
  lemma DayListOfConcat(a: seq<Obra>, b: seq<Obra>)
    ensures ObrasDoDia(a + b) == ObrasDoDia(a) + ObrasDoDia(b)
  {
    FilterConcat(a, b, IsEmAndamento);
  }

  function IdOf(o: Obra): int
  {
    o.id
  }

  /** The day's lists of the backend's obras come in row order: their ids strictly
      increase. */
  lemma DayListInRowOrder(rt: Backend.Runtime, now: Backend.DateTime, rows: seq<seq<Backend.Cell>>)
    ensures IncreasingBy(ObrasDoDia(Backend.Obras(rt, now, rows)), IdOf)
  {
    var os := Backend.Obras(rt, now, rows);
    Backend.ObrasIds(rt, now, rows);
    assert IncreasingBy(os, IdOf);
    FilterKeepsIncreasing(os, IdOf, IsEmAndamento);
  }

  const Green := "#10b981"
  const Blue := "#3b82f6"
  const Amber := "#f59e0b"
  const Grey := "#6b7280"

  /** `getStatusColor`: an energised obra is green whatever its status; otherwise
      the status picks the colour, and an unknown status is grey. */
  function StatusColor(status: string, isEnergizada: bool): (c: string)
    ensures isEnergizada ==> c == Green
    ensures !isEnergizada ==> (c == Blue <==> status == Backend.EmAndamento)
    ensures !isEnergizada ==> (c == Green <==> status == Backend.Concluida)
    ensures !isEnergizada ==> (c == Amber <==> status == Backend.Programada)
    ensures !isEnergizada ==>
      (c == Grey <==> status !in {Backend.EmAndamento, Backend.Concluida, Backend.Programada})
  {
    if isEnergizada then Green
    else if status == Backend.EmAndamento then Blue
    else if status == Backend.Concluida then Green
    else if status == Backend.Programada then Amber
    else Grey
  }

  /** For an obra the backend emits, the pill is never grey, and it is green
      exactly for the energised and the finished ones. */
  lemma WellFormedColor(o: Obra)
    requires Backend.WellFormedObra(o)
    ensures StatusColor(o.status, o.isEnergizada) != Grey
    ensures StatusColor(o.status, o.isEnergizada) == Green
      <==> o.status in {Backend.Energizada, Backend.Concluida}
  {
  }

  /** The backend's obras are all painted with a known status colour. */
  lemma BackendObrasNeverGrey(rt: Backend.Runtime, now: Backend.DateTime, rows: seq<seq<Backend.Cell>>)
    ensures forall o :: o in Backend.Obras(rt, now, rows) ==>
      StatusColor(o.status, o.isEnergizada) != Grey
  {
    Backend.ObrasFields(rt, now, rows);
    forall o | o in Backend.Obras(rt, now, rows)
      ensures StatusColor(o.status, o.isEnergizada) != Grey
    {
      WellFormedColor(o);
    }
  }

  /** The summary card "Energizadas": `o.isEnergizada`. */
  predicate IsEnergizada(o: Obra)
  {
    o.isEnergizada
  }

  /** The summary card "Concluídas": `o.status === 'Concluída'`. */
  predicate IsConcluida(o: Obra)
  {
    o.status == Backend.Concluida
  }

  /** Not on a card: `o.status === 'Programada'`. */
  predicate IsProgramada(o: Obra)
  {
    o.status == Backend.Programada
  }

  /** The "Em Andamento" card counts the day's list. */
  lemma EmAndamentoCardIsDayList(obras: seq<Obra>)
    ensures |Filter(obras, IsEmAndamento)| == |ObrasDoDia(obras)|
  {
  }

  predicate InProgressOrEnergised(o: Obra)
  {
    IsEmAndamento(o) || IsEnergizada(o)
  }

  predicate OnACard(o: Obra)
  {
    InProgressOrEnergised(o) || IsConcluida(o)
  }

  predicate AnyStatus(o: Obra)
  {
    OnACard(o) || IsProgramada(o)
  }

  /** Over well-formed obras, the three status cards and the programmed obras
      add up to the "Total de Obras" card. */
  lemma {:induction false} SummaryAddsUp(obras: seq<Obra>)
    requires forall o :: o in obras ==> Backend.WellFormedObra(o)
    ensures |Filter(obras, IsEmAndamento)| + |Filter(obras, IsEnergizada)|
      + |Filter(obras, IsConcluida)| + |Filter(obras, IsProgramada)| == |obras|
  {
    FilterDisjointUnion(obras, IsEmAndamento, IsEnergizada, InProgressOrEnergised);
    FilterDisjointUnion(obras, InProgressOrEnergised, IsConcluida, OnACard);
    FilterDisjointUnion(obras, OnACard, IsProgramada, AnyStatus);
    FilterAll(obras, AnyStatus);
  }

  /** `obra.necessidade || 'IMPLANTAÇÃO'`. */
  function NecessidadeShown(o: Obra): (s: string)
    ensures s != ""
    ensures o.necessidade != "" ==> s == o.necessidade
    ensures o.necessidade == "" ==> s == "IMPLANTAÇÃO"
  {
    if o.necessidade != "" then o.necessidade else "IMPLANTAÇÃO"
  }

  /** `obra.criterio || 'QLP'`. */
  function CriterioShown(o: Obra): (s: string)
    ensures s != ""
    ensures o.criterio != "" ==> s == o.criterio
    ensures o.criterio == "" ==> s == "QLP"
  {
    if o.criterio != "" then o.criterio else "QLP"
  }

  /** The necessity column of a served obra: the cleaned column-11 cell, or
      'IMPLANTAÇÃO' where that cell is missing or reads "nan", "none", "nat" or
      blank, since the backend stores such a cell as '' and the page replaces ''. */
  lemma NecessidadeOfRow(rt: Backend.Runtime, now: Backend.DateTime, index: nat, row: seq<Backend.Cell>)
    requires Backend.ObraOf(rt, now, index, row).Some?
    ensures var shown := NecessidadeShown(Backend.ObraOf(rt, now, index, row).value);
      var cell := Backend.LimparValor(rt, row[11]);
      (cell.None? ==> shown == "IMPLANTAÇÃO") && (cell.Some? ==> shown == cell.value)
  {
  }

  /** The criterion column of a served obra: the cleaned column-5 cell, or 'QLP'
      where that cell is missing or a sentinel. */
  lemma CriterioOfRow(rt: Backend.Runtime, now: Backend.DateTime, index: nat, row: seq<Backend.Cell>)
    requires Backend.ObraOf(rt, now, index, row).Some?
    ensures var shown := CriterioShown(Backend.ObraOf(rt, now, index, row).value);
      var cell := Backend.LimparValor(rt, row[5]);
      (cell.None? ==> shown == "QLP") && (cell.Some? ==> shown == cell.value)
  {
  }
}

/** The progress page of the day's production (frontend/src/pages/ProducaoDia.js):
    the colour band and the status label of a production, and the three summary
    cards that count productions by progress. */
module ProducaoDia {
  import opened Wrappers
  import opened Seqs

  /** A production as the page reads it. `progresso` is None when the field is
      missing or null: every comparison with it is then false. `status` is the
      backend's label, None when missing. */
  datatype Producao = Producao(status: Option<string>, progresso: Option<real>)

  const Green := "#10b981"
  const Amber := "#f59e0b"
  const Red := "#ef4444"
  const Grey := "#6b7280"

  /** `progresso >= k` in JavaScript: false for a missing value. */
  predicate AtLeast(progresso: Option<real>, k: real)
  {
    progresso.Some? && progresso.value >= k
  }

  /** `getProgressColor`: the bands tried from the highest down. */
  function ProgressColor(progresso: Option<real>): (c: string)
    ensures c == Green <==> AtLeast(progresso, 80.0)
    ensures c == Amber <==> AtLeast(progresso, 50.0) && !AtLeast(progresso, 80.0)
    ensures c == Red <==> AtLeast(progresso, 20.0) && !AtLeast(progresso, 50.0)
    ensures c == Grey <==> !AtLeast(progresso, 20.0)
  {
    if AtLeast(progresso, 80.0) then Green
    else if AtLeast(progresso, 50.0) then Amber
    else if AtLeast(progresso, 20.0) then Red
    else Grey
  }

  const Concluido := "Concluído"
  const EmAndamento := "Em Andamento"
  const Iniciado := "Iniciado"
  const NaoIniciado := "Não Iniciado"

  /** A JavaScript string is truthy when it is present and not empty. */
  predicate Truthy(s: Option<string>)
  {
    s.Some? && s.value != ""
  }

  /** `producao.progresso || 0`: a missing value (and 0 itself) reads as 0. */
  function ProgressOrZero(progresso: Option<real>): (x: real)
    ensures progresso.None? ==> x == 0.0
    ensures progresso.Some? ==> x == progresso.value
  {
    match progresso
    case Some(v) => v
    case None => 0.0
  }

  /** `getProgressStatus`: the backend's status when it is truthy, otherwise a label
      computed from the progress. */
  function ProgressStatus(p: Producao): (s: string)
    ensures Truthy(p.status) ==> s == p.status.value
    ensures !Truthy(p.status) ==> s in {Concluido, EmAndamento, Iniciado, NaoIniciado}
    ensures !Truthy(p.status) ==> (s == Concluido <==> ProgressOrZero(p.progresso) >= 80.0)
    ensures !Truthy(p.status) ==>
      (s == EmAndamento <==> 50.0 <= ProgressOrZero(p.progresso) < 80.0)
    ensures !Truthy(p.status) ==>
      (s == Iniciado <==> 0.0 < ProgressOrZero(p.progresso) < 50.0)
    ensures !Truthy(p.status) ==>
      (s == NaoIniciado <==> ProgressOrZero(p.progresso) <= 0.0)
  {
    if Truthy(p.status) then p.status.value
    else
      var progresso := ProgressOrZero(p.progresso);
      if progresso >= 80.0 then Concluido
      else if progresso >= 50.0 then EmAndamento
      else if progresso > 0.0 then Iniciado
      else NaoIniciado
  }

  /** Without a backend status, the computed label is 'Concluído' exactly when the
      row is painted green. */
  lemma ConcluidoIffGreen(p: Producao)
    requires !Truthy(p.status)
    ensures ProgressStatus(p) == Concluido <==> ProgressColor(p.progresso) == Green
  {
  }

  /** A backend status wins whatever the progress, so two productions with the same
      truthy status show the same label. */
  lemma BackendStatusWins(p: Producao, progresso: Option<real>)
    requires Truthy(p.status)
    ensures ProgressStatus(p.(progresso := progresso)) == ProgressStatus(p)
  {
  }

  /** The summary card "Concluídas": `p.progresso >= 80`. */
  predicate IsConcluida(p: Producao)
  {
    AtLeast(p.progresso, 80.0)
  }

  /** The summary card "Em Andamento": `p.progresso > 0 && p.progresso < 80`. */
  predicate IsEmAndamento(p: Producao)
  {
    p.progresso.Some? && 0.0 < p.progresso.value < 80.0
  }

  /** The summary card "Não Iniciadas": `p.progresso === 0`. */
  predicate IsNaoIniciada(p: Producao)
  {
    p.progresso == Some(0.0)
  }

  /** Counted by the first or the second card. */
  predicate IsStarted(p: Producao)
  {
    IsConcluida(p) || IsEmAndamento(p)
  }

  /** Counted by one of the three cards. */
  predicate IsCounted(p: Producao)
  {
    IsStarted(p) || IsNaoIniciada(p)
  }

  /** The three cards never count the same production twice, and a production
      without a progress is counted by none of them. */
  lemma SummaryDisjoint(p: Producao)
    ensures !(IsConcluida(p) && IsEmAndamento(p))
    ensures !(IsConcluida(p) && IsNaoIniciada(p))
    ensures !(IsEmAndamento(p) && IsNaoIniciada(p))
    ensures p.progresso.None? ==> !IsCounted(p)
  {
  }

  /** When every progress is a non-negative number, the three card counts add up
      to the number of productions. */
  lemma {:induction false} SummaryCountsSum(ps: seq<Producao>)
    requires forall p :: p in ps ==> p.progresso.Some? && p.progresso.value >= 0.0
    ensures |Filter(ps, IsConcluida)| + |Filter(ps, IsEmAndamento)| + |Filter(ps, IsNaoIniciada)|
      == |ps|
  {
    FilterDisjointUnion(ps, IsConcluida, IsEmAndamento, IsStarted);
    FilterDisjointUnion(ps, IsStarted, IsNaoIniciada, IsCounted);
    FilterAll(ps, IsCounted);
  }

  /** The "Concluídas" card counts exactly the rows painted green. */
  lemma ConcluidasAreGreen(ps: seq<Producao>)
    ensures forall p :: p in Filter(ps, IsConcluida) <==> p in ps && ProgressColor(p.progresso) == Green
  {
  }
}

/** The rows of the MainBD spreadsheet as the chart utilities read them,
    and the activity and team predicates they filter with. */
module ChartRows {
  import opened Wrappers
  import opened Seqs
  import opened Text

  /** One MainBD row. A missing cell is `None`; a numeric cell is kept as its text. */
  datatype Row = Row(
    desAtividade: Option<string>,
    desEquipe: Option<string>,
    supervisor: Option<string>,
    qtdAtividade: Option<string>,
    clientesLig: Option<string>,
    clientes: Option<string>,
    dataEnerg: Option<string>,
    ssOt: Option<string>,
    valorProjeto: Option<string>,
    valorMao: Option<string>,
    arCoelba: Option<string>)

  /** JavaScript truthiness of a cell: present and not the empty string. */
  predicate Truthy(c: Option<string>)
  {
    c.Some? && c.value != ""
  }

  /** `cell || fallback`. */
  function Or(c: Option<string>, fallback: string): (r: string)
    ensures Truthy(c) ==> r == c.value
    ensures !Truthy(c) ==> r == fallback
  {
    if Truthy(c) then c.value else fallback
  }

  /** The laws of `||` on cells: the result is empty only when the cell is falsy and
      the fallback empty, a truthy cell makes the fallback irrelevant, and chained
      fallbacks group either way: `(c || f) || g` is `c || (f || g)`. */
  lemma OrLaws(c: Option<string>, f: string, g: string)
    ensures Or(c, f) == "" <==> !Truthy(c) && f == ""
    ensures Truthy(c) ==> Or(c, f) == Or(c, g)
    ensures Or(Some(Or(c, f)), g) == Or(c, Or(Some(f), g))
  {
  }

  /** `parseFloat(cell) || 0`. The number a text spells is left abstract as
      `num`, a total function that gives 0 for a text that spells none;
      a missing cell reads as 0. */
  function Number(num: string -> real, c: Option<string>): real
  {
    match c
    case None => 0.0
    case Some(s) => num(s)
  }

  /** `parseFloat(row.qtd_atividade) || 0`, as a function of the row. */
  function Quantity(num: string -> real): Row -> real
  {
    (r: Row) => Number(num, r.qtdAtividade)
  }

  /** `row.des_atividade || ""`. */
  function Activity(r: Row): string
  {
    Or(r.desAtividade, "")
  }

  /** `row.des_equipe || ""`. */
  function Team(r: Row): string
  {
    Or(r.desEquipe, "")
  }

  /** The activity is "POSTE AT" or "POSTE BT". */
  predicate IsPoste(r: Row)
  {
    Activity(r) == "POSTE AT" || Activity(r) == "POSTE BT"
  }

  /** The excavation test on an upper-cased activity: it mentions "CAVA" or
      "ESCAVAÇÃO" but not "ESCAVAÇÃO PARA ESTAI". */
  predicate IsCavaActivity(desc: string)
  {
    (Contains(desc, "CAVA") || Contains(desc, "ESCAVAÇÃO")) && !Contains(desc, "ESCAVAÇÃO PARA ESTAI")
  }

  /** The row's activity, upper-cased, passes the excavation test. */
  predicate IsCava(r: Row)
  {
    IsCavaActivity(Upper(Activity(r)))
  }

  /** The excavator teams `processMainBDData` credits with `cavasPorRetro`. */
  const RetroTeams: seq<string> := ["WESLEI-IRC", "MENEZES-IRC", "VAGNO-IRC", "OSIMAR-JAC", "TIAGO-JAC", "JOAO-JAC"]

  /** A cava row of one of the excavator teams. */
  predicate IsRetroCava(r: Row)
  {
    var atividade := Upper(Activity(r));
    Team(r) in RetroTeams
    && (Contains(atividade, "CAVA") || Contains(atividade, "ESCAVAÇÃO"))
    && !Contains(atividade, "ESCAVAÇÃO PARA ESTAI")
  }

  /** The excavator teams `groupCavasByOperador` groups (this list spells "WESLEY-IRC"). */
  const OperadorTeams: seq<string> := ["JOAO-JAC", "OSIMAR-JAC", "VAGNO-IRC", "TIAGO-JAC", "WESLEY-IRC", "MENEZES-IRC"]

  /** A row `groupCavasByOperador` keeps: an operator team, an excavation, and no "ESTAI"/"ESTAÍ" anywhere. */
  predicate IsOperadorCava(r: Row)
  {
    var atividade := Upper(Activity(r));
    Team(r) in OperadorTeams
    && (Contains(atividade, "CAVA") || Contains(atividade, "ESCAVAÇÃO"))
    && !Contains(atividade, "ESTAI")
    && !Contains(atividade, "ESTAÍ")
  }

  /** The two teams whose customer connections are counted. */
  const LigacaoTeams: seq<string> := ["WASHINGTON-IRC", "JENILSON-JAC"]

  /** A customer-connection row of one of the two connection teams. */
  predicate IsLigacaoCliente(r: Row)
  {
    Upper(Activity(r)) == "LIGAÇÃO DE CLIENTE" && Team(r) in LigacaoTeams
  }

  /** A row of one of the two connection teams, whatever its activity. */
  predicate IsClienteTeam(r: Row)
  {
    Team(r) == "JENILSON-JAC" || Team(r) == "WASHINGTON-IRC"
  }

  /** The row has a truthy "SS/OT" (work order) cell. */
  predicate HasSsot(r: Row)
  {
    Truthy(r.ssOt)
  }

  /** `row["SS/OT"]`, read where it is known to be truthy. */
  function SsotOf(r: Row): string
  {
    Or(r.ssOt, "")
  }

  /** As written, the two excavator-team lists spell one team differently, so a cava
      row of "WESLEY-IRC" is grouped by `groupCavasByOperador` but not counted in
      `cavasPorRetro`. */
  lemma WesleyCountedByOperadorOnly()
    ensures var r := Row(Some("CAVA"), Some("WESLEY-IRC"), None, None, None, None, None, None, None, None, None);
      IsOperadorCava(r) && !IsRetroCava(r)
  {
    var r := Row(Some("CAVA"), Some("WESLEY-IRC"), None, None, None, None, None, None, None, None, None);
    assert Upper("CAVA") == "CAVA";
    ContainsAt("CAVA", "CAVA", 0);
    assert Team(r) !in RetroTeams;
    NotContainsLonger("CAVA", "ESTAI");
    NotContainsLonger("CAVA", "ESTAÍ");
  }

  /** The evidently intended excavator teams: one list, shared by `cavasPorRetro` and
      `groupCavasByOperador`. */
  const IntendedRetroTeams: seq<string> := OperadorTeams

  /** The intended `cavasPorRetro` row test, over the shared team list. */
  predicate IsIntendedRetroCava(r: Row)
  {
    var atividade := Upper(Activity(r));
    Team(r) in IntendedRetroTeams
    && (Contains(atividade, "CAVA") || Contains(atividade, "ESCAVAÇÃO"))
    && !Contains(atividade, "ESCAVAÇÃO PARA ESTAI")
  }

  /** With the shared list, the two tests agree on every activity that mentions no
      stay ("ESTAI"/"ESTAÍ"), and every row the operator chart groups is counted in
      `cavasPorRetro`. */
  lemma IntendedRetroAgreesWithOperador(r: Row)
    ensures IsOperadorCava(r) ==> IsIntendedRetroCava(r)
    ensures !Contains(Upper(Activity(r)), "ESTAI") && !Contains(Upper(Activity(r)), "ESTAÍ") ==>
      (IsIntendedRetroCava(r) <==> IsOperadorCava(r))
  {
    var atividade := Upper(Activity(r));
    if IsOperadorCava(r) && Contains(atividade, "ESCAVAÇÃO PARA ESTAI") {
      assert "ESCAVAÇÃO PARA ESTAI"[15..20] == "ESTAI";
      ContainsAt("ESCAVAÇÃO PARA ESTAI", "ESTAI", 15);
      ContainsTransitive(atividade, "ESCAVAÇÃO PARA ESTAI", "ESTAI");
      assert false;
    }
  }

  /** Because "ESCAVAÇÃO" contains "CAVA", the excavation test is the same as
      "mentions CAVA but not ESCAVAÇÃO PARA ESTAI". */
  lemma CavaActivitySimplified(desc: string)
    ensures IsCavaActivity(desc) <==> Contains(desc, "CAVA") && !Contains(desc, "ESCAVAÇÃO PARA ESTAI")
  {
    if Contains(desc, "ESCAVAÇÃO") {
      assert "ESCAVAÇÃO"[2..6] == "CAVA";
      ContainsAt("ESCAVAÇÃO", "CAVA", 2);
      ContainsTransitive(desc, "ESCAVAÇÃO", "CAVA");
    }
  }

  /** Every `cavasPorRetro` row is a cava row. */
  lemma RetroRowsAreCavaRows(r: Row)
    ensures IsRetroCava(r) ==> IsCava(r)
  {
  }

  /** Every row `groupCavasByOperador` keeps is a cava row: a text without
      "ESTAI" cannot contain "ESCAVAÇÃO PARA ESTAI". */
  lemma OperadorRowsAreCavaRows(r: Row)
    ensures IsOperadorCava(r) ==> IsCava(r)
  {
    var atividade := Upper(Activity(r));
    if IsOperadorCava(r) && Contains(atividade, "ESCAVAÇÃO PARA ESTAI") {
      assert "ESCAVAÇÃO PARA ESTAI"[15..20] == "ESTAI";
      ContainsAt("ESCAVAÇÃO PARA ESTAI", "ESTAI", 15);
      ContainsTransitive(atividade, "ESCAVAÇÃO PARA ESTAI", "ESTAI");
      assert false;
    }
  }
}

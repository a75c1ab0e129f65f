/**
 * The page component (`Home`): its state fields and the handlers that change
 * them. The record store is seen only through the requests the page sends
 * (kept, oldest first, in `chamadas`) and the outcome of each request, which
 * the handlers receive as parameters. The `confirm` prompt is a boolean
 * parameter; the `alert` shown on a failed request is not modelled.
 */
module Pagina {
  import opened Wrappers
  import opened Texto
  import opened Numeros
  import opened Diarias
  import opened Resumo

  /** A request sent to the record store. */
  datatype Requisicao =
    | Selecionar                                                 // select all, newest first
    | Incluir(militarNome: string, valor: Option<int>)
    | Alterar(id: string, militarNome: string, valor: Option<int>)
    | Remover(id: string)

  /** The store's answer to an insert, update or delete. */
  datatype Resposta = Sucesso | Falha(mensagem: string)

  /** The store's answer to the list request. */
  datatype Carga = Carregada(dados: seq<Diaria>) | FalhaCarga(mensagem: string)

  /** The list after a load: replaced on success, left as it was on failure. */
  function Recarregada(atual: seq<Diaria>, carga: Carga): (r: seq<Diaria>)
    ensures carga.Carregada? ==> r == carga.dados
    ensures carga.FalhaCarga? ==> r == atual
  {
    if carga.Carregada? then carga.dados else atual
  }

  /** The insert request the form sends, or `None` when the guard stops it. */
  function PedidoDeInsercao(nome: string, valor: string): (r: Option<Requisicao>)
    ensures r.None? <==> EmBranco(nome) || valor == ""
    ensures r.Some? ==> r.value == Incluir(Normalizar(nome), Interpretar(valor))
  {
    if EmBranco(nome) || valor == "" then None
    else Some(Incluir(Normalizar(nome), Interpretar(valor)))
  }

  /** The guard stops the insert exactly when the name is blank or whitespace only,
      or the value field is empty; a request that is sent carries a non-empty,
      upper-case, trimmed name and the parsed value. */
  lemma InsercaoGuardada(nome: string, valor: string)
    ensures var r := PedidoDeInsercao(nome, valor);
      && (r.None? <==> EmBranco(nome) || valor == "")
      && (r.Some? ==> r.value.Incluir? && r.value.militarNome == Normalizar(nome)
                      && r.value.militarNome != [] && Normalizado(r.value.militarNome)
                      && r.value.valor == Interpretar(valor))
  {
    NormalizarCorreto(nome);
  }

  /** The update request an edit-save sends. */
  function PedidoDeAtualizacao(id: string, nome: string, valor: string): (r: Requisicao)
    ensures r == Alterar(id, Normalizar(nome), Interpretar(valor))
  {
    Alterar(id, Normalizar(nome), Interpretar(valor))
  }

  /** An edit-save writes the draft name upper-cased and trimmed. There is no guard:
      the name written is empty exactly when the draft name was blank. */
  lemma AtualizacaoNormaliza(id: string, nome: string, valor: string)
    ensures var r := PedidoDeAtualizacao(id, nome, valor);
      && r.id == id && r.militarNome == Normalizar(nome) && Normalizado(r.militarNome)
      && r.valor == Interpretar(valor)
      && (r.militarNome == [] <==> EmBranco(nome))
  {
    NormalizarCorreto(nome);
  }

  /** Saving an edit the user did not touch writes the record back as it was, when
      its name was already in normal form: the drafts hold the name and the text of
      the value, and reading that text gives the value again. */
  lemma EdicaoIntactaRegravaORegistro(d: Diaria)
    requires Normalizado(d.militarNome)
    ensures PedidoDeAtualizacao(d.id, d.militarNome, Mostrar(d.valor)) == Alterar(d.id, d.militarNome, Some(d.valor))
  {
    NormalizarNormalizado(d.militarNome);
    InterpretarMostrar(d.valor);
  }

  /** A blank draft name and an emptied draft value are sent as they are: an empty
      name and no number. */
  lemma SalvarSemGuarda(id: string)
    ensures PedidoDeAtualizacao(id, "  ", "") == Alterar(id, "", None)
  {
    AtualizacaoNormaliza(id, "  ", "");
    assert EmBranco("  ") by { ApararCorreto("  "); }
  }

  class Home {
    var diarias: seq<Diaria>
    var novoMilitar: string
    var novoValor: string
    var filtroMilitar: string
    var filtroValorMin: string
    var filtroValorMax: string
    var editandoId: Option<string>
    var editMilitar: string
    var editValor: string
    /** Every request sent to the store so far, oldest first. */
    var chamadas: seq<Requisicao>

    /** The initial state, before the first load. */
    constructor ()
      ensures diarias == [] && chamadas == []
      ensures novoMilitar == "" && novoValor == ""
      ensures filtroMilitar == "" && filtroValorMin == "" && filtroValorMax == ""
      ensures editandoId == None && editMilitar == "" && editValor == ""
    {
      diarias := [];
      novoMilitar, novoValor := "", "";
      filtroMilitar, filtroValorMin, filtroValorMax := "", "", "";
      editandoId, editMilitar, editValor := None, "", "";
      chamadas := [];
    }

    function FiltroAtual(): Filtro
      reads this`filtroMilitar, this`filtroValorMin, this`filtroValorMax
    {
      Filtro(filtroMilitar, filtroValorMin, filtroValorMax)
    }

    /** `diariasFiltradas`: the records that pass the three filter fields, in list order. */
    function DiariasFiltradas(): (r: seq<Diaria>)
      reads this`diarias, this`filtroMilitar, this`filtroValorMin, this`filtroValorMax
      ensures Subsequencia(r, diarias)
      ensures forall d :: d in r <==> d in diarias && Mantem(d, FiltroAtual())
    {
      Filtrar(diarias, FiltroAtual())
    }

    /** `totalGasto`: reads the record list and no filter field. */
    function Total(): (t: int)
      reads this`diarias
      ensures t == Soma(diarias)
    {
      TotalGasto(diarias)
    }

    /** `saldoDisponivel` */
    function Saldo(): (s: int)
      reads this`diarias
      ensures s == SALDO_MENSAL - Total()
    {
      SaldoDisponivel(diarias)
    }

    /** `resumoPorMilitar`, over the filtered records. */
    method ResumoAtual() returns (r: seq<Entrada>)
      ensures r == ResumoEsperado(DiariasFiltradas())
    {
      r := Resumo.ResumoPorMilitar(DiariasFiltradas());
    }

    /** `carregarDiarias`: ask for the list; replace it on success, keep it on failure. */
    method Carregar(carga: Carga)
      modifies this`diarias, this`chamadas
      ensures chamadas == old(chamadas) + [Selecionar]
      ensures diarias == Recarregada(old(diarias), carga)
    {
      chamadas := chamadas + [Selecionar];
      if carga.Carregada? {
        diarias := carga.dados;
      }
    }

    /** `inserirDiaria`: stop at the guard; otherwise send the insert; on success clear
        both form fields and reload, on failure leave everything as it was. */
    method InserirDiaria(resposta: Resposta, carga: Carga)
      modifies this`diarias, this`chamadas, this`novoMilitar, this`novoValor
      ensures var pedido := PedidoDeInsercao(old(novoMilitar), old(novoValor));
        && (pedido.None? ==> chamadas == old(chamadas))
        && (pedido.Some? ==> chamadas == old(chamadas) + [pedido.value] + (if resposta.Sucesso? then [Selecionar] else []))
        && (pedido.Some? && resposta.Sucesso? ==>
              novoMilitar == "" && novoValor == "" && diarias == Recarregada(old(diarias), carga))
        && (pedido.None? || resposta.Falha? ==>
              novoMilitar == old(novoMilitar) && novoValor == old(novoValor) && diarias == old(diarias))
    {
      var pedido := PedidoDeInsercao(novoMilitar, novoValor);
      if pedido.None? {
        return;
      }
      chamadas := chamadas + [pedido.value];
      if resposta.Sucesso? {
        novoMilitar, novoValor := "", "";
        Carregar(carga);
        assert chamadas == old(chamadas) + [pedido.value] + [Selecionar];
      } else {
        assert chamadas == old(chamadas) + [pedido.value] + [];
      }
    }

    /** `excluirDiaria`: nothing happens unless the user confirms; then send the delete
        and reload on success. */
    method ExcluirDiaria(id: string, confirmado: bool, resposta: Resposta, carga: Carga)
      modifies this`diarias, this`chamadas
      ensures !confirmado ==> chamadas == old(chamadas) && diarias == old(diarias)
      ensures confirmado ==>
        chamadas == old(chamadas) + [Remover(id)] + (if resposta.Sucesso? then [Selecionar] else [])
      ensures diarias == if confirmado && resposta.Sucesso? then Recarregada(old(diarias), carga) else old(diarias)
    {
      if !confirmado {
        return;
      }
      chamadas := chamadas + [Remover(id)];
      if resposta.Sucesso? {
        Carregar(carga);
      }
    }

    /** `iniciarEdicao`: make `d` the record being edited, replacing any earlier one,
        and copy its name and the text of its value into the drafts. */
    method IniciarEdicao(d: Diaria)
      modifies this`editandoId, this`editMilitar, this`editValor
      ensures editandoId == Some(d.id) && editMilitar == d.militarNome
      ensures Interpretar(editValor) == Some(d.valor)
      ensures editValor == Mostrar(d.valor)
    {
      editandoId := Some(d.id);
      editMilitar := d.militarNome;
      editValor := Mostrar(d.valor);
      InterpretarMostrar(d.valor);
    }

    /** `salvarEdicao`: send the update built from the drafts; on success leave edit mode
        and reload; on failure stay in edit mode. The drafts are kept either way. */
    method SalvarEdicao(id: string, resposta: Resposta, carga: Carga)
      modifies this`diarias, this`chamadas, this`editandoId
      ensures chamadas == old(chamadas) + [PedidoDeAtualizacao(id, old(editMilitar), old(editValor))]
                          + (if resposta.Sucesso? then [Selecionar] else [])
      ensures editandoId == if resposta.Sucesso? then None else old(editandoId)
      ensures diarias == if resposta.Sucesso? then Recarregada(old(diarias), carga) else old(diarias)
    {
      var pedido := PedidoDeAtualizacao(id, editMilitar, editValor);
      chamadas := chamadas + [pedido];
      if resposta.Sucesso? {
        editandoId := None;
        Carregar(carga);
        assert chamadas == old(chamadas) + [pedido] + [Selecionar];
      }
    }

    /** `cancelarEdicao`: leave edit mode and clear the drafts, without a request. */
    method CancelarEdicao()
      modifies this`editandoId, this`editMilitar, this`editValor
      ensures editandoId == None && editMilitar == "" && editValor == ""
    {
      editandoId := None;
      editMilitar := "";
      editValor := "";
    }

    /** The "Limpar" button: empty the three filter fields, after which the filtered
        list is the whole list. */
    method LimparFiltros()
      modifies this`filtroMilitar, this`filtroValorMin, this`filtroValorMax
      ensures filtroMilitar == "" && filtroValorMin == "" && filtroValorMax == ""
      ensures DiariasFiltradas() == diarias
    {
      filtroMilitar, filtroValorMin, filtroValorMax := "", "", "";
      FiltroVazioMantemTudo(diarias);
    }
  }
}

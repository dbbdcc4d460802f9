/**
 * The anti-fraud gate across successive requests.
 *
 * As written, a request the gate lets through still stores a new row with
 * the same unit and fingerprint, so a second request within the hour leaves
 * two rows in the window, and the window query, declared to return a single
 * row, then fails on every further request of that hour. Attempt counters
 * therefore never pass 2 and the "Muitas tentativas" rejection is never
 * reached. The corrected gate below counts the rows in the window instead.
 */
module Fraude {
  import opened Wrappers
  import opened Erros
  import opened Texto
  import opened Calendario
  import opened Requisicao
  import opened Entidades
  import opened Repositorios
  import opened Validacao
  import opened Assinatura
  import opened Emissao

  /** No stored row was created after `agora`: requests are handled in clock order. */
  ghost predicate Relogio(r: Registros, agora: Instante)
  {
    forall i :: i in r ==> r[i].dtCriacao <= agora
  }

  /** Two rows for the same unit and the same parameter fingerprint. */
  predicate MesmoPedido(a: UnidadeCnd, c: UnidadeCnd)
  {
    a.unidadeId == c.unidadeId && a.hashParametros == c.hashParametros
  }

  /**
   * What the source's gate and emission keep true of the rows: no attempt
   * counter exceeds 2, and a row whose counter is 2 has another row for the
   * same request created no earlier than itself.
   */
  ghost predicate ContadoresLimitados(r: Registros)
  {
    forall i :: i in r ==>
      && r[i].tentativasEmissao <= 2
      && (r[i].tentativasEmissao == 2 ==>
            exists j :: j in r && j != i && MesmoPedido(r[j], r[i]) && r[j].dtCriacao >= r[i].dtCriacao)
  }

  lemma ContadoresLimitadosInicial()
    ensures ContadoresLimitados(BANCO_VAZIO.registros)
  {
  }

  /** With counters bounded by 2 the gate never answers "Muitas tentativas". */
  lemma LimiteNuncaAtingido(r: Registros, sha256Hex: Sha256Hex, unidadeId: int, request: UnidadeCndRequest,
                            ip: string, agora: Instante)
    requires ContadoresLimitados(r)
    ensures AntiFraude(r, sha256Hex, unidadeId, request, ip, agora) != Err(MuitasTentativas)
  {
  }

  /**
   * The only row in a window has counter at most 1: a counter of 2 comes with
   * a second, later row for the same request, which lies in the window too.
   */
  lemma UnicoNaJanela(r: Registros, id: int, unidadeId: int, hashParametros: string, limite: int)
    requires ContadoresLimitados(r)
    requires id in r && NaJanela(r[id], unidadeId, hashParametros, limite)
    requires forall j :: j in r && NaJanela(r[j], unidadeId, hashParametros, limite) ==> j == id
    ensures r[id].tentativasEmissao <= 1
  {
    if r[id].tentativasEmissao == 2 {
      assert false;
    }
  }

  /** Signing changes no counter, unit, fingerprint or creation time. */
  lemma AssinaturaPreservaContadores(r: Registros, cndId: int, assinatura: Option<Bytes>, sha256Hex: Sha256Hex,
                                     agora: Instante, relogio: Instante)
    requires ContadoresLimitados(r) && Relogio(r, relogio)
    ensures var r' := ProcessarAssinatura(r, cndId, assinatura, sha256Hex, agora);
      ContadoresLimitados(r') && Relogio(r', relogio)
  {
    var r' := ProcessarAssinatura(r, cndId, assinatura, sha256Hex, agora);
    assert forall i :: i in r ==>
      (MesmoPedido(r'[i], r[i]) && r'[i].dtCriacao == r[i].dtCriacao && r'[i].tentativasEmissao == r[i].tentativasEmissao);
    forall i | i in r' && r'[i].tentativasEmissao == 2
      ensures exists j :: j in r' && j != i && MesmoPedido(r'[j], r'[i]) && r'[j].dtCriacao >= r'[i].dtCriacao
    {
      var j :| j in r && j != i && MesmoPedido(r[j], r[i]) && r[j].dtCriacao >= r[i].dtCriacao;
      assert MesmoPedido(r'[j], r'[i]);
    }
  }

  /** Storing a row with counter at most 1 under a fresh id keeps counters bounded. */
  lemma InsercaoPreservaContadores(r: Registros, pid: int, novo: UnidadeCnd)
    requires ContadoresLimitados(r) && pid !in r && novo.tentativasEmissao <= 1
    ensures ContadoresLimitados(r[pid := novo])
  {
    var r' := r[pid := novo];
    forall i | i in r' && r'[i].tentativasEmissao == 2
      ensures exists j :: j in r' && j != i && MesmoPedido(r'[j], r'[i]) && r'[j].dtCriacao >= r'[i].dtCriacao
    {
      var j :| j in r && j != i && MesmoPedido(r[j], r[i]) && r[j].dtCriacao >= r[i].dtCriacao;
      assert r'[j] == r[j];
    }
  }

  /**
   * Raising a counter of at most 1, then storing under a fresh id a later row
   * for the same request, keeps counters bounded: the new row is the raised
   * row's companion.
   */
  lemma IncrementoPreservaContadores(r: Registros, id: int, pid: int, novo: UnidadeCnd)
    requires ContadoresLimitados(r) && id in r && r[id].tentativasEmissao <= 1
    requires pid !in r && novo.tentativasEmissao <= 1
    requires MesmoPedido(novo, r[id]) && novo.dtCriacao >= r[id].dtCriacao
    ensures ContadoresLimitados(Incrementado(r, id)[pid := novo])
  {
    var r' := Incrementado(r, id)[pid := novo];
    forall i | i in r' && r'[i].tentativasEmissao == 2
      ensures exists j :: j in r' && j != i && MesmoPedido(r'[j], r'[i]) && r'[j].dtCriacao >= r'[i].dtCriacao
    {
      if i == id {
        assert MesmoPedido(r'[pid], r'[i]);
      } else {
        var j :| j in r && j != i && MesmoPedido(r[j], r[i]) && r[j].dtCriacao >= r[i].dtCriacao;
        assert MesmoPedido(r'[j], r'[i]);
      }
    }
  }

  /**
   * The gate followed by the insert of the new row keeps counters bounded,
   * provided requests come in clock order: the gate only raises the counter
   * of the single row in the window, which is then at most 1, and the new row
   * is a later row for the same request next to it.
   */
  lemma AntiFraudeEInsercaoPreservamContadores(r: Registros, sha256Hex: Sha256Hex, unidadeId: int,
                                               request: UnidadeCndRequest, ip: string, agora: Instante,
                                               pid: int, novo: UnidadeCnd)
    requires ContadoresLimitados(r) && Relogio(r, agora) && pid !in r
    requires AntiFraude(r, sha256Hex, unidadeId, request, ip, agora).Ok?
    requires novo.tentativasEmissao == 1 && novo.dtCriacao == agora
    requires novo.unidadeId == unidadeId && novo.hashParametros == CalcularHash(sha256Hex, unidadeId, request)
    ensures var r' := AntiFraude(r, sha256Hex, unidadeId, request, ip, agora).value[pid := novo];
      ContadoresLimitados(r') && Relogio(r', agora)
  {
    var gate := AntiFraude(r, sha256Hex, unidadeId, request, ip, agora);
    var q := UltimaCnd(r, sha256Hex, unidadeId, request, agora);
    if q.Um? {
      UnicoNaJanela(r, q.id, unidadeId, CalcularHash(sha256Hex, unidadeId, request), agora - SEGUNDOS_POR_HORA);
      assert gate.value == Incrementado(r, q.id);
      IncrementoPreservaContadores(r, q.id, pid, novo);
    } else {
      assert gate.value == r;
      InsercaoPreservaContadores(r, pid, novo);
    }
    AntiFraudePreservaRegistros(r, sha256Hex, unidadeId, request, ip, agora);
    assert forall i :: i in gate.value ==> gate.value[i].dtCriacao == r[i].dtCriacao;
  }

  /**
   * A successful emission passed the gate and stored, under the next identity
   * value, a row with counter 1 created now for the same unit and fingerprint.
   */
  lemma EmissaoAcrescentaPedido(b: Banco, us: Unidades, sha256Hex: Sha256Hex, gerarPdf: GeradorPdf, unidadeId: int,
                                request: UnidadeCndRequest, ip: string, agora: Instante, aleatorio: nat)
    requires aleatorio < 1000
    requires EmitirCndPdf(b, us, sha256Hex, gerarPdf, unidadeId, request, ip, agora, aleatorio).resposta.Ok?
    ensures var e := EmitirCndPdf(b, us, sha256Hex, gerarPdf, unidadeId, request, ip, agora, aleatorio);
      var gate := AntiFraude(b.registros, sha256Hex, unidadeId, request, ip, agora);
      && gate.Ok? && b.proximoId in e.banco.registros
      && var novo := e.banco.registros[b.proximoId];
         && e.banco.registros == gate.value[b.proximoId := novo]
         && novo.tentativasEmissao == 1 && novo.dtCriacao == agora
         && novo.unidadeId == unidadeId && novo.hashParametros == CalcularHash(sha256Hex, unidadeId, request)
  {
    var gate := AntiFraude(b.registros, sha256Hex, unidadeId, request, ip, agora);
    EtapasConcluidas(b, us, gate, sha256Hex, gerarPdf, unidadeId, request, ip, agora, aleatorio);
    ConcluirSucesso(b, gate.value, sha256Hex, gerarPdf, unidadeId, request, ip, agora, aleatorio);
  }

  /** Emission as written keeps counters bounded by 2, provided requests come in clock order. */
  lemma EmissaoPreservaContadores(b: Banco, us: Unidades, sha256Hex: Sha256Hex, gerarPdf: GeradorPdf, unidadeId: int,
                                  request: UnidadeCndRequest, ip: string, agora: Instante, aleatorio: nat)
    requires aleatorio < 1000
    requires b.proximoId !in b.registros && ContadoresLimitados(b.registros) && Relogio(b.registros, agora)
    ensures var e := EmitirCndPdf(b, us, sha256Hex, gerarPdf, unidadeId, request, ip, agora, aleatorio);
      ContadoresLimitados(e.banco.registros) && Relogio(e.banco.registros, agora)
  {
    var e := EmitirCndPdf(b, us, sha256Hex, gerarPdf, unidadeId, request, ip, agora, aleatorio);
    if e.resposta.Ok? {
      EmissaoAcrescentaPedido(b, us, sha256Hex, gerarPdf, unidadeId, request, ip, agora, aleatorio);
      AntiFraudeEInsercaoPreservamContadores(b.registros, sha256Hex, unidadeId, request, ip, agora,
                                             b.proximoId, e.banco.registros[b.proximoId]);
    }
  }

  /**
   * The defect: once a request finds its single earlier row in the window and
   * goes through, the window holds that row and the new one, so any request
   * with the same unit and parameters while the earlier row is still in the
   * window fails with a non-unique result, not with "Muitas tentativas".
   */
  lemma SegundaEmissaoBloqueiaJanela(b: Banco, us: Unidades, sha256Hex: Sha256Hex, gerarPdf: GeradorPdf, unidadeId: int,
                                     request: UnidadeCndRequest, ip: string, agora: Instante, aleatorio: nat,
                                     request2: UnidadeCndRequest, ip2: string, agora2: Instante)
    requires aleatorio < 1000
    requires b.proximoId !in b.registros && Relogio(b.registros, agora)
    requires UltimaCnd(b.registros, sha256Hex, unidadeId, request, agora).Um?
    requires EmitirCndPdf(b, us, sha256Hex, gerarPdf, unidadeId, request, ip, agora, aleatorio).resposta.Ok?
    requires agora2 < b.registros[UltimaCnd(b.registros, sha256Hex, unidadeId, request, agora).id].dtCriacao + SEGUNDOS_POR_HORA
    requires request2.comPeriodo == request.comPeriodo && request2.comAssinatura == request.comAssinatura
    ensures var e := EmitirCndPdf(b, us, sha256Hex, gerarPdf, unidadeId, request, ip, agora, aleatorio);
      AntiFraude(e.banco.registros, sha256Hex, unidadeId, request2, ip2, agora2) == Err(ResultadoNaoUnico)
  {
    var e := EmitirCndPdf(b, us, sha256Hex, gerarPdf, unidadeId, request, ip, agora, aleatorio);
    var r := b.registros;
    var gate := AntiFraude(r, sha256Hex, unidadeId, request, ip, agora);
    EmissaoAcrescentaPedido(b, us, sha256Hex, gerarPdf, unidadeId, request, ip, agora, aleatorio);
    AntiFraudePreservaRegistros(r, sha256Hex, unidadeId, request, ip, agora);
    CalcularHashIgnoraCanal(sha256Hex, unidadeId, request, request2);
    var id := UltimaCnd(r, sha256Hex, unidadeId, request, agora).id;
    var pid := b.proximoId;
    var r' := e.banco.registros;
    var hash := CalcularHash(sha256Hex, unidadeId, request2);
    assert pid !in r;
    assert NaJanela(r'[id], unidadeId, hash, agora2 - SEGUNDOS_POR_HORA);
    assert NaJanela(r'[pid], unidadeId, hash, agora2 - SEGUNDOS_POR_HORA);
    assert UltimaCnd(r', sha256Hex, unidadeId, request2, agora2) == Varios;
  }

  /**
   * The first emission of an hour opens the window: a request with the same
   * unit and parameters within the following hour finds exactly that row and
   * passes the gate, raising its counter.
   */
  lemma PrimeiraEmissaoAbreJanela(b: Banco, us: Unidades, sha256Hex: Sha256Hex, gerarPdf: GeradorPdf, unidadeId: int,
                                  request: UnidadeCndRequest, ip: string, agora: Instante, aleatorio: nat,
                                  request2: UnidadeCndRequest, ip2: string, agora2: Instante)
    requires aleatorio < 1000
    requires b.proximoId !in b.registros
    requires UltimaCnd(b.registros, sha256Hex, unidadeId, request, agora) == Nenhum
    requires EmitirCndPdf(b, us, sha256Hex, gerarPdf, unidadeId, request, ip, agora, aleatorio).resposta.Ok?
    requires agora <= agora2 < agora + SEGUNDOS_POR_HORA
    requires request2.comPeriodo == request.comPeriodo && request2.comAssinatura == request.comAssinatura
    ensures var e := EmitirCndPdf(b, us, sha256Hex, gerarPdf, unidadeId, request, ip, agora, aleatorio);
      && UltimaCnd(e.banco.registros, sha256Hex, unidadeId, request2, agora2) == Um(b.proximoId)
      && AntiFraude(e.banco.registros, sha256Hex, unidadeId, request2, ip2, agora2) ==
         Ok(Incrementado(e.banco.registros, b.proximoId))
  {
    var e := EmitirCndPdf(b, us, sha256Hex, gerarPdf, unidadeId, request, ip, agora, aleatorio);
    var r := b.registros;
    var gate := AntiFraude(r, sha256Hex, unidadeId, request, ip, agora);
    EmissaoAcrescentaPedido(b, us, sha256Hex, gerarPdf, unidadeId, request, ip, agora, aleatorio);
    CalcularHashIgnoraCanal(sha256Hex, unidadeId, request, request2);
    var pid := b.proximoId;
    var r' := e.banco.registros;
    var hash := CalcularHash(sha256Hex, unidadeId, request2);
    assert pid !in r;
    assert NaJanela(r'[pid], unidadeId, hash, agora2 - SEGUNDOS_POR_HORA);
    forall j | j in r
      ensures !NaJanela(r'[j], unidadeId, hash, agora2 - SEGUNDOS_POR_HORA)
    {
      assert !NaJanela(r[j], unidadeId, hash, agora - SEGUNDOS_POR_HORA);
    }
  }

  /** The rows of the last hour for the same unit and parameter fingerprint. */
  function JanelaDoPedido(r: Registros, sha256Hex: Sha256Hex, unidadeId: int, request: UnidadeCndRequest,
                          agora: Instante): (s: set<int>)
    ensures forall i :: i in s <==>
      i in r && NaJanela(r[i], unidadeId, CalcularHash(sha256Hex, unidadeId, request), agora - SEGUNDOS_POR_HORA)
  {
    set i | i in r && NaJanela(r[i], unidadeId, CalcularHash(sha256Hex, unidadeId, request), agora - SEGUNDOS_POR_HORA)
  }

  /**
   * The gate as evidently intended: reject once 5 emissions of the same unit
   * and parameters lie in the last hour, counting the rows themselves; it
   * writes nothing and never depends on the window holding a single row.
   */
  function AntiFraudeCorrigida(r: Registros, sha256Hex: Sha256Hex, unidadeId: int, request: UnidadeCndRequest,
                               ip: string, agora: Instante): (res: Result<Registros, Erro>)
    ensures res.Ok? <==> |JanelaDoPedido(r, sha256Hex, unidadeId, request, agora)| < MAX_TENTATIVAS_HORA
    ensures res.Ok? ==> res.value == r
    ensures res.Err? ==> res.error == MuitasTentativas
  {
    if |JanelaDoPedido(r, sha256Hex, unidadeId, request, agora)| >= MAX_TENTATIVAS_HORA then Err(MuitasTentativas)
    else Ok(r)
  }

  /** Emission with the corrected gate in place of the source's. */
  function EmitirCndPdfCorrigido(b: Banco, us: Unidades, sha256Hex: Sha256Hex, gerarPdf: GeradorPdf, unidadeId: int,
                            request: UnidadeCndRequest, ip: string, agora: Instante, aleatorio: nat): (e: Emitido)
    requires aleatorio < 1000
    ensures e.resposta.Err? ==> e.banco == b
  {
    Etapas(b, us, AntiFraudeCorrigida(b.registros, sha256Hex, unidadeId, request, ip, agora), sha256Hex, gerarPdf,
           unidadeId, request, ip, agora, aleatorio)
  }

  /** The corrected emission keeps the store valid. */
  lemma EmissaoCorrigidaPreservaBancoValido(b: Banco, us: Unidades, sha256Hex: Sha256Hex, gerarPdf: GeradorPdf,
                                            unidadeId: int, request: UnidadeCndRequest, ip: string, agora: Instante,
                                            aleatorio: nat)
    requires aleatorio < 1000
    requires BancoValido(b)
    ensures BancoValido(EmitirCndPdfCorrigido(b, us, sha256Hex, gerarPdf, unidadeId, request, ip, agora, aleatorio).banco)
  {
    var gate := AntiFraudeCorrigida(b.registros, sha256Hex, unidadeId, request, ip, agora);
    EtapasPreservaBancoValido(b, us, gate, sha256Hex, gerarPdf, unidadeId, request, ip, agora, aleatorio);
  }

  /**
   * The intended limit holds: a corrected emission that succeeds adds exactly
   * its own row to the window, which then holds at most 5 rows; at 5 rows the
   * request is rejected with "Muitas tentativas" and nothing is written; and
   * the non-unique failure cannot occur.
   */
  lemma EmissaoCorrigidaLimitaJanela(b: Banco, us: Unidades, sha256Hex: Sha256Hex, gerarPdf: GeradorPdf,
                                     unidadeId: int, request: UnidadeCndRequest, ip: string, agora: Instante,
                                     aleatorio: nat)
    requires aleatorio < 1000
    requires BancoValido(b)
    ensures var e := EmitirCndPdfCorrigido(b, us, sha256Hex, gerarPdf, unidadeId, request, ip, agora, aleatorio);
      var antes := JanelaDoPedido(b.registros, sha256Hex, unidadeId, request, agora);
      var depois := JanelaDoPedido(e.banco.registros, sha256Hex, unidadeId, request, agora);
      && e.resposta != Err(ResultadoNaoUnico)
      && (FindByIdAndRegAtivoIsTrue(us, unidadeId).Some? && |antes| >= MAX_TENTATIVAS_HORA ==>
            e.resposta == Err(MuitasTentativas) && e.banco == b)
      && (e.resposta.Ok? ==> depois == antes + {b.proximoId} && b.proximoId !in antes)
      && (e.resposta.Ok? ==> |depois| == |antes| + 1 <= MAX_TENTATIVAS_HORA)
  {
    EmissaoCorrigidaRecusaNoLimite(b, us, sha256Hex, gerarPdf, unidadeId, request, ip, agora, aleatorio);
    if EmitirCndPdfCorrigido(b, us, sha256Hex, gerarPdf, unidadeId, request, ip, agora, aleatorio).resposta.Ok? {
      assert b.proximoId !in b.registros;
      EmissaoCorrigidaAcrescentaJanela(b, us, sha256Hex, gerarPdf, unidadeId, request, ip, agora, aleatorio);
    }
  }

  /**
   * The corrected emission never fails with a non-unique result, and refuses
   * an active unit whose window already holds 5 rows, writing nothing.
   */
  lemma EmissaoCorrigidaRecusaNoLimite(b: Banco, us: Unidades, sha256Hex: Sha256Hex, gerarPdf: GeradorPdf,
                                       unidadeId: int, request: UnidadeCndRequest, ip: string, agora: Instante,
                                       aleatorio: nat)
    requires aleatorio < 1000
    ensures var e := EmitirCndPdfCorrigido(b, us, sha256Hex, gerarPdf, unidadeId, request, ip, agora, aleatorio);
      && e.resposta != Err(ResultadoNaoUnico)
      && (FindByIdAndRegAtivoIsTrue(us, unidadeId).Some? &&
          |JanelaDoPedido(b.registros, sha256Hex, unidadeId, request, agora)| >= MAX_TENTATIVAS_HORA ==>
            e.resposta == Err(MuitasTentativas) && e.banco == b)
  {
    var gate := AntiFraudeCorrigida(b.registros, sha256Hex, unidadeId, request, ip, agora);
    assert EmitirCndPdfCorrigido(b, us, sha256Hex, gerarPdf, unidadeId, request, ip, agora, aleatorio)
        == Etapas(b, us, gate, sha256Hex, gerarPdf, unidadeId, request, ip, agora, aleatorio);
    AtivaEntaoAdimplente(us, unidadeId);
  }

  /** A successful corrected emission adds exactly its own row to the window, which then holds at most 5 rows. */
  lemma EmissaoCorrigidaAcrescentaJanela(b: Banco, us: Unidades, sha256Hex: Sha256Hex, gerarPdf: GeradorPdf,
                                         unidadeId: int, request: UnidadeCndRequest, ip: string, agora: Instante,
                                         aleatorio: nat)
    requires aleatorio < 1000
    requires b.proximoId !in b.registros
    requires EmitirCndPdfCorrigido(b, us, sha256Hex, gerarPdf, unidadeId, request, ip, agora, aleatorio).resposta.Ok?
    ensures var e := EmitirCndPdfCorrigido(b, us, sha256Hex, gerarPdf, unidadeId, request, ip, agora, aleatorio);
      var antes := JanelaDoPedido(b.registros, sha256Hex, unidadeId, request, agora);
      var depois := JanelaDoPedido(e.banco.registros, sha256Hex, unidadeId, request, agora);
      && depois == antes + {b.proximoId} && b.proximoId !in antes
      && |depois| == |antes| + 1 <= MAX_TENTATIVAS_HORA
  {
    var gate := AntiFraudeCorrigida(b.registros, sha256Hex, unidadeId, request, ip, agora);
    EtapasConcluidas(b, us, gate, sha256Hex, gerarPdf, unidadeId, request, ip, agora, aleatorio);
    ConcluirAcrescentaJanela(b, b.registros, sha256Hex, gerarPdf, unidadeId, request, ip, agora, aleatorio);
    var antes := JanelaDoPedido(b.registros, sha256Hex, unidadeId, request, agora);
    assert |antes + {b.proximoId}| == |antes| + 1;
  }

  /** After the gate, a successful emission adds exactly its own row to the request's window. */
  lemma ConcluirAcrescentaJanela(b: Banco, registros: Registros, sha256Hex: Sha256Hex, gerarPdf: GeradorPdf,
                                 unidadeId: int, request: UnidadeCndRequest, ip: string, agora: Instante,
                                 aleatorio: nat)
    requires aleatorio < 1000
    requires b.proximoId !in registros
    requires Concluir(b, registros, sha256Hex, gerarPdf, unidadeId, request, ip, agora, aleatorio).resposta.Ok?
    ensures var e := Concluir(b, registros, sha256Hex, gerarPdf, unidadeId, request, ip, agora, aleatorio);
      && JanelaDoPedido(e.banco.registros, sha256Hex, unidadeId, request, agora)
         == JanelaDoPedido(registros, sha256Hex, unidadeId, request, agora) + {b.proximoId}
      && b.proximoId !in JanelaDoPedido(registros, sha256Hex, unidadeId, request, agora)
  {
    ConcluirSucesso(b, registros, sha256Hex, gerarPdf, unidadeId, request, ip, agora, aleatorio);
    var e := Concluir(b, registros, sha256Hex, gerarPdf, unidadeId, request, ip, agora, aleatorio);
    InsercaoNaJanela(registros, sha256Hex, unidadeId, request, agora, b.proximoId, e.banco.registros[b.proximoId]);
  }

  /** Storing under a fresh id a row that lies in the window grows the window by exactly that id. */
  lemma InsercaoNaJanela(r: Registros, sha256Hex: Sha256Hex, unidadeId: int, request: UnidadeCndRequest,
                         agora: Instante, pid: int, novo: UnidadeCnd)
    requires pid !in r
    requires NaJanela(novo, unidadeId, CalcularHash(sha256Hex, unidadeId, request), agora - SEGUNDOS_POR_HORA)
    ensures JanelaDoPedido(r[pid := novo], sha256Hex, unidadeId, request, agora)
         == JanelaDoPedido(r, sha256Hex, unidadeId, request, agora) + {pid}
  {
  }
}

/**
 * The services over one shared store, as the application runs them: the rows
 * of `unidade_cnd`, the next identity value, and the signing tasks handed to
 * the asynchronous executor. Each method changes the store the way the
 * source's statements do and is proved to match the transition function that
 * specifies it, so every property proved about those functions holds of the
 * methods.
 */
module Servicos {
  import opened Wrappers
  import opened Erros
  import opened Texto
  import opened Calendario
  import opened Requisicao
  import opened Entidades
  import opened Repositorios
  import opened Validacao
  import opened Assinatura
  import opened Emissao
  import opened Controlador

  class Aplicacao {
    var registros: Registros
    var proximoId: int
    var agendados: seq<int>
    const unidades: Unidades
    const sha256Hex: Sha256Hex

    function Estado(): Banco
      reads this
    {
      Banco(registros, proximoId, agendados)
    }

    ghost predicate Valid()
      reads this
    {
      BancoValido(Estado())
    }

    constructor (unidades: Unidades, sha256Hex: Sha256Hex)
      ensures Valid() && Estado() == BANCO_VAZIO
      ensures this.unidades == unidades && this.sha256Hex == sha256Hex
    {
      registros := map[];
      proximoId := 1;
      agendados := [];
      this.unidades := unidades;
      this.sha256Hex := sha256Hex;
    }

    /**
     * `CndValidacaoService.validarAntiFraude`: looks up the last hour's row for
     * the same unit and fingerprint, rejects at 5 attempts, otherwise raises
     * the row's counter and saves it.
     */
    method ValidarAntiFraude(unidadeId: int, request: UnidadeCndRequest, ip: string, agora: Instante)
      returns (res: Result<(), Erro>)
      modifies this
      ensures old(Valid()) ==> Valid()
      ensures var gate := AntiFraude(old(registros), sha256Hex, unidadeId, request, ip, agora);
        && (res.Ok? <==> gate.Ok?)
        && (gate.Ok? ==> registros == gate.value)
        && (gate.Err? ==> registros == old(registros) && res.error == gate.error)
      ensures proximoId == old(proximoId) && agendados == old(agendados)
    {
      ghost var esperado := AntiFraude(registros, sha256Hex, unidadeId, request, ip, agora);
      var hashParametros := CalcularHash(sha256Hex, unidadeId, request);
      var dataLimite := agora - SEGUNDOS_POR_HORA;
      var ultima := FindByUnidadeIdAndHashParametrosAndDtCriacaoAfter(registros, unidadeId, hashParametros, dataLimite);
      assert ultima == UltimaCnd(registros, sha256Hex, unidadeId, request, agora);
      match ultima {
        case Nenhum =>
          assert esperado == Ok(registros);
          return Ok(());
        case Varios =>
          assert esperado == Err(ResultadoNaoUnico);
          return Err(ResultadoNaoUnico);
        case Um(id) =>
          var cnd := registros[id];
          if cnd.tentativasEmissao >= MAX_TENTATIVAS_HORA {
            assert esperado == Err(MuitasTentativas);
            return Err(MuitasTentativas);
          }
          cnd := cnd.(tentativasEmissao := cnd.tentativasEmissao + 1);
          assert esperado == Ok(registros[id := cnd]) by {
            assert registros[id := cnd] == Incrementado(registros, id);
          }
          if Valid() {
            ContadoresPreservamBancoValido(Estado(), registros[id := cnd]);
          }
          registros := registros[id := cnd];
          return Ok(());
      }
    }

    /**
     * `UnidadeService.salvarCndEmitida` and the insert: stores the new row
     * under the next identity value and answers that id, or fails on a null
     * channel or a code already stored, writing nothing.
     */
    method SalvarCndEmitida(unidadeId: int, request: UnidadeCndRequest, codigo: string, pdf: Bytes, ip: string,
                            agora: Instante) returns (res: Result<int, Erro>)
      modifies this
      ensures var s := Emissao.SalvarCndEmitida(old(registros), old(proximoId), sha256Hex, unidadeId, request,
                                                codigo, pdf, ip, agora);
        && (res.Ok? <==> s.Ok?)
        && (s.Ok? ==> res.value == old(proximoId) && registros == s.value && proximoId == old(proximoId) + 1)
        && (s.Err? ==> res.error == s.error && registros == old(registros) && proximoId == old(proximoId))
      ensures agendados == old(agendados)
    {
      if request.canalEmissao.None? {
        return Err(ColunaObrigatoriaNula);
      }
      if exists j :: j in registros && registros[j].codigoValidacao == codigo {
        return Err(CodigoDuplicado);
      }
      var cnd := EntidadeEmitida(sha256Hex, unidadeId, request, request.canalEmissao.value, codigo, pdf, ip, agora);
      registros := registros[proximoId := cnd];
      res := Ok(proximoId);
      proximoId := proximoId + 1;
    }

    /**
     * `UnidadeService.emitirCndPdf`: the steps in the source's order; a
     * failure after the gate restores the rows as they were, as the
     * transaction's rollback does.
     */
    method EmitirCndPdf(gerarPdf: GeradorPdf, unidadeId: int, request: UnidadeCndRequest, ip: string,
                        agora: Instante, aleatorio: nat) returns (res: Result<UnidadeCndPdfResponse, Erro>)
      requires Valid() && aleatorio < 1000
      modifies this
      ensures Valid()
      ensures var e := Emissao.EmitirCndPdf(old(Estado()), unidades, sha256Hex, gerarPdf, unidadeId, request, ip, agora, aleatorio);
        Estado() == e.banco && res == e.resposta
    {
      ghost var inicial := Estado();
      ghost var portao := AntiFraude(registros, sha256Hex, unidadeId, request, ip, agora);
      EmissaoPreservaBancoValido(inicial, unidades, sha256Hex, gerarPdf, unidadeId, request, ip, agora, aleatorio);
      var instantaneo := registros;
      var unidade := FindByIdAndRegAtivoIsTrue(unidades, unidadeId);
      if unidade.None? {
        return Err(UnidadeNaoEncontrada);
      }
      var adimplente := IsUnidadeAdimplente(unidades, unidadeId);
      if !adimplente {
        return Err(UnidadeComDebitos);
      }
      var gate := ValidarAntiFraude(unidadeId, request, ip, agora);
      if gate.Err? {
        return Err(gate.error);
      }
      assert registros == portao.value;
      res := ConcluirEmissao(instantaneo, gerarPdf, unidadeId, request, ip, agora, aleatorio);
    }

    /**
     * The statements of `emitirCndPdf` after the gate; a failure restores the
     * rows `instantaneo` taken before the gate.
     */
    method ConcluirEmissao(instantaneo: Registros, gerarPdf: GeradorPdf, unidadeId: int, request: UnidadeCndRequest,
                           ip: string, agora: Instante, aleatorio: nat) returns (res: Result<UnidadeCndPdfResponse, Erro>)
      requires aleatorio < 1000
      modifies this
      ensures var e := Concluir(Banco(instantaneo, old(proximoId), old(agendados)), old(registros), sha256Hex, gerarPdf,
                                unidadeId, request, ip, agora, aleatorio);
        Estado() == e.banco && res == e.resposta
    {
      var codigo := GerarCodigoValidacao(agora, aleatorio);
      var dadosUnidade := ColetarDadosUnidade(request, agora);
      if dadosUnidade.Err? {
        registros := instantaneo;
        return Err(dadosUnidade.error);
      }
      var pdf := gerarPdf(dadosUnidade.value, codigo);
      if pdf.None? {
        registros := instantaneo;
        return Err(ErroGerarPdf);
      }
      res := GravarEmissao(instantaneo, unidadeId, request, codigo, pdf.value, ip, agora);
    }

    /**
     * The save, the scheduling of the signing and the response; a refused
     * save restores the rows as they were before the gate.
     */
    method GravarEmissao(instantaneo: Registros, unidadeId: int, request: UnidadeCndRequest, codigo: string,
                         pdf: Bytes, ip: string, agora: Instante) returns (res: Result<UnidadeCndPdfResponse, Erro>)
      modifies this
      ensures var e := Gravar(Banco(instantaneo, old(proximoId), old(agendados)), old(registros), sha256Hex,
                              unidadeId, request, codigo, pdf, ip, agora);
        Estado() == e.banco && res == e.resposta
    {
      var salvo := SalvarCndEmitida(unidadeId, request, codigo, pdf, ip, agora);
      if salvo.Err? {
        registros := instantaneo;
        return Err(salvo.error);
      }
      agendados := agendados + [salvo.value];
      res := Ok(UnidadeCndPdfResponse(codigo, PROCESSANDO, agora, MaisDias(agora, DIAS_VALIDADE),
                                      URL_VALIDACAO + codigo, sha256Hex(pdf)));
    }

    /**
     * `CndAssinaturaService.processarAssinaturaAsync`, run to completion: signs
     * the row's PDF with the given signature outcome, or marks the row "ERRO"
     * when that throws; a missing id writes nothing.
     */
    method ProcessarAssinaturaAsync(cndId: int, assinatura: Option<Bytes>, agora: Instante)
      requires Valid()
      modifies this
      ensures Valid()
      ensures registros == ProcessarAssinatura(old(registros), cndId, assinatura, sha256Hex, agora)
      ensures proximoId == old(proximoId) && agendados == old(agendados)
    {
      AssinaturaPreservaBancoValido(Estado(), cndId, assinatura, sha256Hex, agora);
      if cndId !in registros {
        return;
      }
      var cnd := registros[cndId];
      var documentoAssinado := AssinarDocumentoLocal(cnd.documentoPdf, assinatura);
      if documentoAssinado.None? {
        registros := registros[cndId := cnd.(status := ERRO)];
        return;
      }
      var hashDocumento := ObterHashDocumento(sha256Hex, documentoAssinado.value);
      var dadosAssinatura := DadosAssinatura(ALGORITMO, CERTIFICADO, agora, hashDocumento);
      cnd := cnd.(documentoAssinado := documentoAssinado, status := ASSINADO, dtAssinatura := Some(agora),
                  dadosAssinatura := Some(dadosAssinatura));
      registros := registros[cndId := cnd];
    }

    /** `UnidadeService.validarCnd`: the status report for a code; reads only. */
    method ValidarCnd(codigo: string) returns (res: Result<CndValidacaoResponse, Erro>)
      requires Valid()
      ensures res == ValidarPorCodigo(registros, unidades, sha256Hex, codigo)
      ensures res.Err? ==> res.error == CndNaoEncontrada
    {
      res := ValidarPorCodigo(registros, unidades, sha256Hex, codigo);
    }

    /** `UnidadeService.downloadCnd` as the controller serves it; reads only. */
    method DownloadCnd(codigo: string) returns (res: Result<Download, Erro>)
      requires Valid()
      ensures res == Controlador.DownloadCnd(registros, codigo)
      ensures res.Err? ==> res.error == CndNaoEncontrada || res.error == DocumentoNaoDisponivel
    {
      res := Controlador.DownloadCnd(registros, codigo);
    }
  }
}

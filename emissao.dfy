/**
 * `UnidadeService`: the issuance pipeline as a transition of the whole store
 * (`Banco`: the issuance rows, the next identity value and the queue of
 * signing tasks handed to the asynchronous executor). The steps run in the
 * source's order and stop at the first exception; because the method is
 * `@Transactional`, an exception rolls back everything it wrote, including
 * the gate's counter increment.
 *
 * The PDF renderer is not modelled: `gerarPdf` is any function from the
 * collected data and the code to bytes, or to `None` when it throws.
 */
module Emissao {
  import opened Wrappers
  import opened Erros
  import opened Texto
  import opened Calendario
  import opened Requisicao
  import opened Entidades
  import opened Repositorios
  import opened Validacao
  import opened Assinatura

  const DIAS_VALIDADE: nat := 30
  /** The validity period in seconds: 30 days. */
  const PRAZO_VALIDADE: nat := DIAS_VALIDADE * SEGUNDOS_POR_DIA
  const URL_VALIDACAO: string := "http://localhost:8080/api/cnd/validar/"
  const VENCIMENTOS: seq<string> := ["01/01/2024", "01/02/2024", "01/03/2024"]

  /** The data handed to the PDF renderer (`UnidadeCndData`). */
  datatype UnidadeCndData = UnidadeCndData(
    nomeCondominio: string,
    logradouro: string,
    numero: string,
    bairro: string,
    cidade: string,
    uf: string,
    cep: string,
    unidadeCodigo: string,
    bloco: string,
    validadeDocumento: string,
    usuario: string,
    dataVencimento: Option<seq<string>>,
    comPeriodo: Option<bool>)

  type GeradorPdf = (UnidadeCndData, string) -> Option<Bytes>

  /** The issuance response (`UnidadeCndPdfResponse`). */
  datatype UnidadeCndPdfResponse = UnidadeCndPdfResponse(
    codigoValidacao: string,
    status: string,
    dataEmissao: Instante,
    dataExpiracao: Instante,
    urlValidacao: string,
    hashDocumento: string)

  /**
   * `coletarDadosUnidade`: fixed sample data; the three due dates only when
   * `comPeriodo` is set. The conditional unboxes `comPeriodo`, so a null
   * value throws.
   */
  function ColetarDadosUnidade(request: UnidadeCndRequest, agora: Instante): (res: Result<UnidadeCndData, Erro>)
    ensures res.Err? <==> request.comPeriodo.None?
    ensures res.Err? ==> res.error == ValorNulo
    ensures res.Ok? ==> res.value.comPeriodo == request.comPeriodo
    ensures res.Ok? ==> (res.value.dataVencimento.Some? <==> IsTrue(request.comPeriodo))
    ensures res.Ok? && res.value.dataVencimento.Some? ==> res.value.dataVencimento.value == VENCIMENTOS
    ensures res.Ok? ==> res.value.validadeDocumento == FormatoDDMMYYYY(MaisDias(agora, DIAS_VALIDADE))
  {
    match request.comPeriodo
    case None => Err(ValorNulo)
    case Some(comPeriodo) =>
      Ok(UnidadeCndData(
        "Condomínio Residencial Jardim das Flores", "Rua das Flores", "123", "Centro", "Belo Horizonte",
        "MG", "30112-000", "101", "A", FormatoDDMMYYYY(MaisDias(agora, DIAS_VALIDADE)), "Sistema Automatizado",
        if comPeriodo then Some(VENCIMENTOS) else None,
        request.comPeriodo))
  }

  /** The row `salvarCndEmitida` builds before saving it. */
  function EntidadeEmitida(sha256Hex: Sha256Hex, unidadeId: int, request: UnidadeCndRequest, canal: string,
                           codigo: string, pdf: Bytes, ip: string, agora: Instante): (c: UnidadeCnd)
    ensures c.codigoValidacao == codigo && c.unidadeId == unidadeId && c.canalEmissao == canal
    ensures c.hashParametros == CalcularHash(sha256Hex, unidadeId, request)
    ensures c.status == PROCESSANDO && c.tentativasEmissao == 1 && c.regAtivo
    ensures c.documentoPdf == Some(pdf) && c.ipOrigem == Some(ip)
    ensures c.dtCriacao == agora && c.dtAlteracao == agora
    ensures c.dtExpiracao == Some(agora + PRAZO_VALIDADE)
    ensures c.documentoAssinado.None? && c.dadosAssinatura.None? && c.dtAssinatura.None?
  {
    var hashParametros := CalcularHash(sha256Hex, unidadeId, request);
    NovaUnidadeCnd(codigo, unidadeId, hashParametros, canal, agora)
      .(documentoPdf := Some(pdf), dtExpiracao := Some(MaisDias(agora, DIAS_VALIDADE)), ipOrigem := Some(ip))
  }

  /**
   * `salvarCndEmitida` followed by `save`: the insert fails on a null channel
   * (not-null column) or on a code already stored (unique column); otherwise
   * the row is stored under the next identity value `id`.
   */
  function SalvarCndEmitida(r: Registros, id: int, sha256Hex: Sha256Hex, unidadeId: int, request: UnidadeCndRequest,
                            codigo: string, pdf: Bytes, ip: string, agora: Instante): (res: Result<Registros, Erro>)
    ensures request.canalEmissao.None? ==> res == Err(ColunaObrigatoriaNula)
    ensures res.Err? ==> res.error == ColunaObrigatoriaNula || res.error == CodigoDuplicado
    ensures res.Ok? ==>
      (request.canalEmissao.Some? && res.value ==
         r[id := EntidadeEmitida(sha256Hex, unidadeId, request, request.canalEmissao.value, codigo, pdf, ip, agora)])
  {
    if request.canalEmissao.None? then Err(ColunaObrigatoriaNula)
    else if exists j :: j in r && r[j].codigoValidacao == codigo then Err(CodigoDuplicado)
    else Ok(r[id := EntidadeEmitida(sha256Hex, unidadeId, request, request.canalEmissao.value, codigo, pdf, ip, agora)])
  }

  /** The unique column: with a channel present, the insert fails exactly when the code is already stored. */
  lemma SalvarRecusaCodigoDuplicado(r: Registros, id: int, sha256Hex: Sha256Hex, unidadeId: int,
                                    request: UnidadeCndRequest, codigo: string, pdf: Bytes, ip: string, agora: Instante)
    requires request.canalEmissao.Some?
    ensures SalvarCndEmitida(r, id, sha256Hex, unidadeId, request, codigo, pdf, ip, agora) == Err(CodigoDuplicado)
        <==> exists j :: j in r && r[j].codigoValidacao == codigo
  {
  }

  /** A successful insert keeps the codes unique. */
  lemma SalvarPreservaCodigosUnicos(r: Registros, id: int, sha256Hex: Sha256Hex, unidadeId: int,
                                    request: UnidadeCndRequest, codigo: string, pdf: Bytes, ip: string, agora: Instante)
    requires CodigosUnicos(r)
    requires SalvarCndEmitida(r, id, sha256Hex, unidadeId, request, codigo, pdf, ip, agora).Ok?
    ensures CodigosUnicos(SalvarCndEmitida(r, id, sha256Hex, unidadeId, request, codigo, pdf, ip, agora).value)
  {
  }

  /** The store: the issuance rows, the next identity value, and the signing tasks submitted so far. */
  datatype Banco = Banco(registros: Registros, proximoId: int, agendados: seq<int>)

  /** Everything the pipeline keeps true of the store. */
  ghost predicate BancoValido(b: Banco)
  {
    && CodigosUnicos(b.registros)
    && (forall id :: id in b.registros ==> id < b.proximoId)
    && (forall k :: 0 <= k < |b.agendados| ==> b.agendados[k] in b.registros)
    && (forall id :: id in b.registros ==> RegistroValido(b.registros[id]))
  }

  /**
   * A row as the pipeline writes it: one of the three statuses; the signed
   * document and the signature data present together, and present whenever
   * the status is "ASSINADO"; the expiry fixed 30 days after creation.
   */
  ghost predicate RegistroValido(c: UnidadeCnd)
  {
    && (c.status == PROCESSANDO || c.status == ASSINADO || c.status == ERRO)
    && (c.documentoAssinado.Some? <==> c.dadosAssinatura.Some?)
    && (c.status == ASSINADO ==> c.documentoAssinado.Some?)
    && c.dtExpiracao == Some(c.dtCriacao + PRAZO_VALIDADE)
    && c.dtExpiracao.value > c.dtCriacao
  }

  const BANCO_VAZIO: Banco := Banco(map[], 1, [])

  lemma BancoVazioValido()
    ensures BancoValido(BANCO_VAZIO)
  {
  }

  datatype Emitido = Emitido(banco: Banco, resposta: Result<UnidadeCndPdfResponse, Erro>)

  /**
   * `emitirCndPdf`: active-unit lookup, debt check, anti-fraud gate, code,
   * collected data, PDF, save, scheduling of the signing; the response carries
   * the code and the hash of the unsigned PDF.
   */
  function EmitirCndPdf(b: Banco, us: Unidades, sha256Hex: Sha256Hex, gerarPdf: GeradorPdf, unidadeId: int,
                   request: UnidadeCndRequest, ip: string, agora: Instante, aleatorio: nat): (e: Emitido)
    requires aleatorio < 1000
    ensures e.resposta.Err? ==> e.banco == b
  {
    Etapas(b, us, AntiFraude(b.registros, sha256Hex, unidadeId, request, ip, agora), sha256Hex, gerarPdf, unidadeId,
           request, ip, agora, aleatorio)
  }

  /**
   * The steps of `emitirCndPdf` around the gate, given the gate's outcome
   * `gate` (the rows after it, or the exception it throws). Any failure
   * leaves the store as it was: the transaction rolls back, the gate's write
   * included.
   */
  function Etapas(b: Banco, us: Unidades, gate: Result<Registros, Erro>, sha256Hex: Sha256Hex, gerarPdf: GeradorPdf,
                  unidadeId: int, request: UnidadeCndRequest, ip: string, agora: Instante, aleatorio: nat): (e: Emitido)
    requires aleatorio < 1000
    ensures e.resposta.Err? ==> e.banco == b
    ensures e.resposta.Err? ==>
      || e.resposta.error in {UnidadeNaoEncontrada, UnidadeComDebitos}
      || (gate.Err? && e.resposta.error == gate.error)
      || e.resposta.error in {ValorNulo, ErroGerarPdf, ColunaObrigatoriaNula, CodigoDuplicado}
  {
    match FindByIdAndRegAtivoIsTrue(us, unidadeId)
    case None => Emitido(b, Err(UnidadeNaoEncontrada))
    case Some(unidade) =>
      if !IsUnidadeAdimplente(us, unidadeId) then Emitido(b, Err(UnidadeComDebitos))
      else match gate
      case Err(e) => Emitido(b, Err(e))
      case Ok(registros) => Concluir(b, registros, sha256Hex, gerarPdf, unidadeId, request, ip, agora, aleatorio)
  }

  /**
   * The steps after the gate, on the rows the gate left: code, unit data, PDF,
   * save and scheduling of the signing. A failure answers the store as it was
   * before the gate.
   */
  function Concluir(b: Banco, registros: Registros, sha256Hex: Sha256Hex, gerarPdf: GeradorPdf, unidadeId: int,
                    request: UnidadeCndRequest, ip: string, agora: Instante, aleatorio: nat): (e: Emitido)
    requires aleatorio < 1000
    ensures e.resposta.Err? ==> e.banco == b
    ensures e.resposta.Err? ==> e.resposta.error in {ValorNulo, ErroGerarPdf, ColunaObrigatoriaNula, CodigoDuplicado}
  {
    var codigo := GerarCodigoValidacao(agora, aleatorio);
    match ColetarDadosUnidade(request, agora)
    case Err(e) => Emitido(b, Err(e))
    case Ok(dados) =>
      match gerarPdf(dados, codigo)
      case None => Emitido(b, Err(ErroGerarPdf))
      case Some(pdf) => Gravar(b, registros, sha256Hex, unidadeId, request, codigo, pdf, ip, agora)
  }

  /**
   * The last steps: save the row, queue its signing after the commit and
   * answer with the code and the PDF's hash; a refused save answers the store
   * as it was before the gate.
   */
  function Gravar(b: Banco, registros: Registros, sha256Hex: Sha256Hex, unidadeId: int, request: UnidadeCndRequest,
                  codigo: string, pdf: Bytes, ip: string, agora: Instante): (e: Emitido)
    ensures e.resposta.Err? ==> e.banco == b && e.resposta.error in {ColunaObrigatoriaNula, CodigoDuplicado}
    ensures e.resposta.Ok? ==> e.resposta.value.codigoValidacao == codigo && e.banco.proximoId == b.proximoId + 1
                               && e.banco.agendados == b.agendados + [b.proximoId]
  {
    match SalvarCndEmitida(registros, b.proximoId, sha256Hex, unidadeId, request, codigo, pdf, ip, agora)
    case Err(e) => Emitido(b, Err(e))
    case Ok(salvos) =>
      var resposta := UnidadeCndPdfResponse(codigo, PROCESSANDO, agora, MaisDias(agora, DIAS_VALIDADE),
                                            URL_VALIDACAO + codigo, sha256Hex(pdf));
      Emitido(Banco(salvos, b.proximoId + 1, b.agendados + [b.proximoId]), Ok(resposta))
  }

  /**
   * A successful run of the steps after the gate: the code was fresh, the
   * data, the PDF and the channel were present, the store gained exactly the
   * row `salvarCndEmitida` builds under the next identity value and queued its
   * signing, and the response carries the code and the hash of the PDF.
   */
  lemma ConcluirSucesso(b: Banco, registros: Registros, sha256Hex: Sha256Hex, gerarPdf: GeradorPdf, unidadeId: int,
                        request: UnidadeCndRequest, ip: string, agora: Instante, aleatorio: nat)
    requires aleatorio < 1000
    requires Concluir(b, registros, sha256Hex, gerarPdf, unidadeId, request, ip, agora, aleatorio).resposta.Ok?
    ensures var e := Concluir(b, registros, sha256Hex, gerarPdf, unidadeId, request, ip, agora, aleatorio);
      var codigo := GerarCodigoValidacao(agora, aleatorio);
      var dados := ColetarDadosUnidade(request, agora);
      && dados.Ok? && gerarPdf(dados.value, codigo).Some? && request.canalEmissao.Some?
      && (forall j :: j in registros ==> registros[j].codigoValidacao != codigo)
      && var pdf := gerarPdf(dados.value, codigo).value;
         var novo := EntidadeEmitida(sha256Hex, unidadeId, request, request.canalEmissao.value, codigo, pdf, ip, agora);
         && e.banco == Banco(registros[b.proximoId := novo], b.proximoId + 1, b.agendados + [b.proximoId])
         && e.resposta.value == UnidadeCndPdfResponse(codigo, PROCESSANDO, agora, MaisDias(agora, DIAS_VALIDADE),
                                                      URL_VALIDACAO + codigo, sha256Hex(pdf))
  {
    var codigo := GerarCodigoValidacao(agora, aleatorio);
    var pdf := gerarPdf(ColetarDadosUnidade(request, agora).value, codigo).value;
    var salvos := SalvarCndEmitida(registros, b.proximoId, sha256Hex, unidadeId, request, codigo, pdf, ip, agora);
    assert salvos.Ok?;
  }

  /**
   * The steps run in order and the first failure decides the answer: a
   * missing or inactive unit, then the debt check, then the gate, then a null
   * `comPeriodo`, then the renderer, then the save. When every step passes
   * the answer is `Ok`.
   */
  lemma EtapasOrdemDosPassos(b: Banco, us: Unidades, gate: Result<Registros, Erro>, sha256Hex: Sha256Hex,
                             gerarPdf: GeradorPdf, unidadeId: int, request: UnidadeCndRequest, ip: string,
                             agora: Instante, aleatorio: nat)
    requires aleatorio < 1000
    ensures var e := Etapas(b, us, gate, sha256Hex, gerarPdf, unidadeId, request, ip, agora, aleatorio);
      var ativa := FindByIdAndRegAtivoIsTrue(us, unidadeId).Some?;
      var passa := ativa && IsUnidadeAdimplente(us, unidadeId) && gate.Ok?;
      var codigo := GerarCodigoValidacao(agora, aleatorio);
      var dados := ColetarDadosUnidade(request, agora);
      var pdf := if dados.Ok? then gerarPdf(dados.value, codigo) else None;
      && (!ativa ==> e.resposta == Err(UnidadeNaoEncontrada))
      && (ativa && !IsUnidadeAdimplente(us, unidadeId) ==> e.resposta == Err(UnidadeComDebitos))
      && (ativa && IsUnidadeAdimplente(us, unidadeId) && gate.Err? ==> e.resposta == Err(gate.error))
      && (passa && dados.Err? ==> e.resposta == Err(ValorNulo))
      && (passa && dados.Ok? && pdf.None? ==> e.resposta == Err(ErroGerarPdf))
      && (passa && pdf.Some? && request.canalEmissao.None? ==> e.resposta == Err(ColunaObrigatoriaNula))
      && (passa && pdf.Some? && request.canalEmissao.Some? ==>
            (e.resposta == Err(CodigoDuplicado) <==>
             exists j :: j in gate.value && gate.value[j].codigoValidacao == codigo))
      && (e.resposta.Ok? <==>
            passa && pdf.Some? && request.canalEmissao.Some? &&
            forall j :: j in gate.value ==> gate.value[j].codigoValidacao != codigo)
  {
  }

  /**
   * The debt rejection never fires: it repeats the active-unit lookup, and the
   * gate throws only its own two errors.
   */
  lemma EmissaoNuncaRecusaPorDebito(b: Banco, us: Unidades, sha256Hex: Sha256Hex, gerarPdf: GeradorPdf, unidadeId: int,
                                    request: UnidadeCndRequest, ip: string, agora: Instante, aleatorio: nat)
    requires aleatorio < 1000
    ensures EmitirCndPdf(b, us, sha256Hex, gerarPdf, unidadeId, request, ip, agora, aleatorio).resposta != Err(UnidadeComDebitos)
  {
    var gate := AntiFraude(b.registros, sha256Hex, unidadeId, request, ip, agora);
    AtivaEntaoAdimplente(us, unidadeId);
    EtapasOrdemDosPassos(b, us, gate, sha256Hex, gerarPdf, unidadeId, request, ip, agora, aleatorio);
  }

  /** A successful run found the unit active and paid up, passed the gate, and is the steps after it on the gate's rows. */
  lemma EtapasConcluidas(b: Banco, us: Unidades, gate: Result<Registros, Erro>, sha256Hex: Sha256Hex,
                         gerarPdf: GeradorPdf, unidadeId: int, request: UnidadeCndRequest, ip: string, agora: Instante,
                         aleatorio: nat)
    requires aleatorio < 1000
    requires Etapas(b, us, gate, sha256Hex, gerarPdf, unidadeId, request, ip, agora, aleatorio).resposta.Ok?
    ensures FindByIdAndRegAtivoIsTrue(us, unidadeId).Some? && IsUnidadeAdimplente(us, unidadeId) && gate.Ok?
    ensures Etapas(b, us, gate, sha256Hex, gerarPdf, unidadeId, request, ip, agora, aleatorio)
         == Concluir(b, gate.value, sha256Hex, gerarPdf, unidadeId, request, ip, agora, aleatorio)
  {
  }

  /**
   * A successful emission stores exactly one new row, under the next identity
   * value, on top of the gate's rows; the row is "PROCESSANDO" with counter
   * 1, the generated code, the gate's fingerprint, the rendered PDF, the
   * caller's address and channel, and expires 30 days after creation. Its
   * signing is queued once. The response repeats the code and carries the
   * hash of the unsigned PDF.
   */
  lemma EtapasSucesso(b: Banco, us: Unidades, gate: Result<Registros, Erro>, sha256Hex: Sha256Hex, gerarPdf: GeradorPdf,
                      unidadeId: int, request: UnidadeCndRequest, ip: string, agora: Instante, aleatorio: nat)
    requires aleatorio < 1000
    requires Etapas(b, us, gate, sha256Hex, gerarPdf, unidadeId, request, ip, agora, aleatorio).resposta.Ok?
    ensures var e := Etapas(b, us, gate, sha256Hex, gerarPdf, unidadeId, request, ip, agora, aleatorio);
      var codigo := GerarCodigoValidacao(agora, aleatorio);
      var novo := e.banco.registros[b.proximoId];
      && gate.Ok? && b.proximoId in e.banco.registros
      && (forall j :: j in gate.value ==> gate.value[j].codigoValidacao != codigo)
      && e.banco.proximoId == b.proximoId + 1
      && e.banco.agendados == b.agendados + [b.proximoId]
      && e.banco.registros == gate.value[b.proximoId := novo]
      && novo.codigoValidacao == codigo && novo.status == PROCESSANDO && novo.tentativasEmissao == 1
      && novo.unidadeId == unidadeId && novo.hashParametros == CalcularHash(sha256Hex, unidadeId, request)
      && novo.canalEmissao == request.canalEmissao.value && novo.ipOrigem == Some(ip)
      && novo.dtCriacao == agora && novo.dtExpiracao == Some(agora + PRAZO_VALIDADE)
      && novo.documentoPdf.Some? && novo.documentoAssinado.None? && novo.dadosAssinatura.None?
      && gerarPdf(ColetarDadosUnidade(request, agora).value, codigo) == novo.documentoPdf
      && e.resposta.value == UnidadeCndPdfResponse(codigo, PROCESSANDO, agora, novo.dtExpiracao.value,
                                                   URL_VALIDACAO + codigo, sha256Hex(novo.documentoPdf.value))
  {
    EtapasConcluidas(b, us, gate, sha256Hex, gerarPdf, unidadeId, request, ip, agora, aleatorio);
    ConcluirSucesso(b, gate.value, sha256Hex, gerarPdf, unidadeId, request, ip, agora, aleatorio);
  }

  /** The gate keeps the rows' keys, and of each row everything but its attempt counter. */
  lemma AntiFraudePreservaRegistros(r: Registros, sha256Hex: Sha256Hex, unidadeId: int, request: UnidadeCndRequest,
                                    ip: string, agora: Instante)
    requires AntiFraude(r, sha256Hex, unidadeId, request, ip, agora).Ok?
    ensures var r' := AntiFraude(r, sha256Hex, unidadeId, request, ip, agora).value;
      && r'.Keys == r.Keys
      && forall i :: i in r ==> r'[i] == r[i].(tentativasEmissao := r'[i].tentativasEmissao)
  {
  }

  /** A row as `salvarCndEmitida` writes it is valid. */
  lemma EntidadeEmitidaValida(sha256Hex: Sha256Hex, unidadeId: int, request: UnidadeCndRequest, canal: string,
                              codigo: string, pdf: Bytes, ip: string, agora: Instante)
    ensures RegistroValido(EntidadeEmitida(sha256Hex, unidadeId, request, canal, codigo, pdf, ip, agora))
  {
  }

  /** Raising attempt counters keeps the store valid. */
  lemma ContadoresPreservamBancoValido(b: Banco, r: Registros)
    requires BancoValido(b)
    requires r.Keys == b.registros.Keys
    requires forall i :: i in r ==> r[i] == b.registros[i].(tentativasEmissao := r[i].tentativasEmissao)
    ensures BancoValido(b.(registros := r))
  {
    forall i, j | i in r && j in r && r[i].codigoValidacao == r[j].codigoValidacao
      ensures i == j
    {
      assert b.registros[i].codigoValidacao == b.registros[j].codigoValidacao;
    }
    forall i | i in r
      ensures RegistroValido(r[i])
    {
      assert RegistroValido(b.registros[i]);
    }
  }

  /** Storing a valid row with a fresh code under the next identity value, and queueing it, keeps the store valid. */
  lemma InsercaoPreservaBancoValido(b: Banco, c: UnidadeCnd)
    requires BancoValido(b) && RegistroValido(c)
    requires forall j :: j in b.registros ==> b.registros[j].codigoValidacao != c.codigoValidacao
    ensures BancoValido(Banco(b.registros[b.proximoId := c], b.proximoId + 1, b.agendados + [b.proximoId]))
  {
    var r' := b.registros[b.proximoId := c];
    assert b.proximoId !in b.registros;
    forall i, j | i in r' && j in r' && r'[i].codigoValidacao == r'[j].codigoValidacao
      ensures i == j
    {
      if i != b.proximoId && j != b.proximoId {
        assert b.registros[i].codigoValidacao == b.registros[j].codigoValidacao;
      }
    }
  }

  /** What the store after a successful emission is made of, as far as validity is concerned. */
  lemma EtapasSucessoInsere(b: Banco, us: Unidades, gate: Result<Registros, Erro>, sha256Hex: Sha256Hex,
                            gerarPdf: GeradorPdf, unidadeId: int, request: UnidadeCndRequest, ip: string,
                            agora: Instante, aleatorio: nat)
    requires aleatorio < 1000
    requires Etapas(b, us, gate, sha256Hex, gerarPdf, unidadeId, request, ip, agora, aleatorio).resposta.Ok?
    ensures var e := Etapas(b, us, gate, sha256Hex, gerarPdf, unidadeId, request, ip, agora, aleatorio);
      var novo := e.banco.registros[b.proximoId];
      && gate.Ok? && b.proximoId in e.banco.registros
      && e.banco == Banco(gate.value[b.proximoId := novo], b.proximoId + 1, b.agendados + [b.proximoId])
      && RegistroValido(novo)
      && (forall j :: j in gate.value ==> gate.value[j].codigoValidacao != novo.codigoValidacao)
  {
    EtapasConcluidas(b, us, gate, sha256Hex, gerarPdf, unidadeId, request, ip, agora, aleatorio);
    ConcluirSucesso(b, gate.value, sha256Hex, gerarPdf, unidadeId, request, ip, agora, aleatorio);
    var codigo := GerarCodigoValidacao(agora, aleatorio);
    var pdf := gerarPdf(ColetarDadosUnidade(request, agora).value, codigo).value;
    EntidadeEmitidaValida(sha256Hex, unidadeId, request, request.canalEmissao.value, codigo, pdf, ip, agora);
  }

  /** The steps keep the store valid whenever the gate's own write does. */
  lemma EtapasPreservaBancoValido(b: Banco, us: Unidades, gate: Result<Registros, Erro>, sha256Hex: Sha256Hex,
                                  gerarPdf: GeradorPdf, unidadeId: int, request: UnidadeCndRequest, ip: string,
                                  agora: Instante, aleatorio: nat)
    requires aleatorio < 1000
    requires BancoValido(b)
    requires gate.Ok? ==> BancoValido(b.(registros := gate.value))
    ensures BancoValido(Etapas(b, us, gate, sha256Hex, gerarPdf, unidadeId, request, ip, agora, aleatorio).banco)
  {
    var e := Etapas(b, us, gate, sha256Hex, gerarPdf, unidadeId, request, ip, agora, aleatorio);
    if e.resposta.Ok? {
      EtapasSucessoInsere(b, us, gate, sha256Hex, gerarPdf, unidadeId, request, ip, agora, aleatorio);
      InsercaoPreservaBancoValido(b.(registros := gate.value), e.banco.registros[b.proximoId]);
    }
  }

  /** Emission keeps the store valid. */
  lemma EmissaoPreservaBancoValido(b: Banco, us: Unidades, sha256Hex: Sha256Hex, gerarPdf: GeradorPdf, unidadeId: int,
                                   request: UnidadeCndRequest, ip: string, agora: Instante, aleatorio: nat)
    requires aleatorio < 1000
    requires BancoValido(b)
    ensures BancoValido(EmitirCndPdf(b, us, sha256Hex, gerarPdf, unidadeId, request, ip, agora, aleatorio).banco)
  {
    var gate := AntiFraude(b.registros, sha256Hex, unidadeId, request, ip, agora);
    if gate.Ok? {
      AntiFraudePreservaRegistros(b.registros, sha256Hex, unidadeId, request, ip, agora);
      ContadoresPreservamBancoValido(b, gate.value);
    }
    EtapasPreservaBancoValido(b, us, gate, sha256Hex, gerarPdf, unidadeId, request, ip, agora, aleatorio);
  }

  /**
   * Signing a row keeps the store valid: the status becomes "ASSINADO" with
   * the signed document and signature data, or "ERRO" with neither added.
   */
  lemma AssinaturaPreservaBancoValido(b: Banco, cndId: int, assinatura: Option<Bytes>, sha256Hex: Sha256Hex,
                                      agora: Instante)
    requires BancoValido(b)
    ensures BancoValido(b.(registros := ProcessarAssinatura(b.registros, cndId, assinatura, sha256Hex, agora)))
  {
    var r, r' := b.registros, ProcessarAssinatura(b.registros, cndId, assinatura, sha256Hex, agora);
    assert forall i :: i in r ==> r'[i].codigoValidacao == r[i].codigoValidacao;
    forall i | i in r'
      ensures RegistroValido(r'[i])
    {
      assert RegistroValido(r[i]);
    }
  }
}

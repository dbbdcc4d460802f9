/**
 * The life of one certificate across the services: issued as "PROCESSANDO"
 * with its unsigned PDF, then signed; the validation report, the download
 * and the hash check agree with each other at every stage.
 */
module Fluxo {
  import opened Wrappers
  import opened Erros
  import opened Texto
  import opened Calendario
  import opened Requisicao
  import opened Entidades
  import opened Repositorios
  import opened Validacao
  import opened Assinatura
  import opened Emissao
  import opened Controlador

  /**
   * Right after issuance, the code from the response validates as
   * "PROCESSANDO", not yet valid and without a document hash; the download
   * serves the unsigned PDF, whose digest is the hash in the response, so the
   * hash check accepts that hash.
   */
  lemma EmitidaAntesDeAssinar(b: Banco, us: Unidades, sha256Hex: Sha256Hex, gerarPdf: GeradorPdf, unidadeId: int,
                              request: UnidadeCndRequest, ip: string, agora: Instante, aleatorio: nat)
    requires aleatorio < 1000
    requires BancoValido(b)
    requires EmitirCndPdf(b, us, sha256Hex, gerarPdf, unidadeId, request, ip, agora, aleatorio).resposta.Ok?
    ensures var e := EmitirCndPdf(b, us, sha256Hex, gerarPdf, unidadeId, request, ip, agora, aleatorio);
      var resposta := e.resposta.value;
      var relatorio := ValidarPorCodigo(e.banco.registros, us, sha256Hex, resposta.codigoValidacao);
      && relatorio.Ok?
      && relatorio.value.status == PROCESSANDO && !relatorio.value.valido && relatorio.value.hashDocumento.None?
      && relatorio.value.dataEmissao == resposta.dataEmissao
      && DownloadCnd(e.banco.registros, resposta.codigoValidacao).Ok?
      && sha256Hex(DownloadCnd(e.banco.registros, resposta.codigoValidacao).value.corpo) == resposta.hashDocumento
      && ValidarHash(e.banco.registros, sha256Hex, resposta.codigoValidacao, resposta.hashDocumento)
  {
    var e := EmitirCndPdf(b, us, sha256Hex, gerarPdf, unidadeId, request, ip, agora, aleatorio);
    var gate := AntiFraude(b.registros, sha256Hex, unidadeId, request, ip, agora);
    EtapasSucesso(b, us, gate, sha256Hex, gerarPdf, unidadeId, request, ip, agora, aleatorio);
    EmissaoPreservaBancoValido(b, us, sha256Hex, gerarPdf, unidadeId, request, ip, agora, aleatorio);
    var r := e.banco.registros;
    var novo := r[b.proximoId];
    assert novo.codigoValidacao == e.resposta.value.codigoValidacao;
    assert ObterDocumentoAssinado(r, novo.codigoValidacao) == Ok(novo.documentoPdf.value);
    assert HexMinusculo(e.resposta.value.hashDocumento);
    assert Trim(e.resposta.value.hashDocumento) == e.resposta.value.hashDocumento;
  }

  /**
   * After signing a row that has a PDF, its report is valid and "ASSINADO",
   * the report's document hash is the one stored in the signature data, the
   * download serves the signed document, and the hash check accepts the
   * stored hash.
   */
  lemma AssinadaDepoisDeAssinar(r: Registros, us: Unidades, cndId: int, assinatura: Option<Bytes>,
                                sha256Hex: Sha256Hex, agora: Instante)
    requires CodigosUnicos(r)
    requires cndId in r && r[cndId].documentoPdf.Some?
    ensures var r' := ProcessarAssinatura(r, cndId, assinatura, sha256Hex, agora);
      var codigo := r[cndId].codigoValidacao;
      var relatorio := ValidarPorCodigo(r', us, sha256Hex, codigo);
      var hash := r'[cndId].dadosAssinatura.value.hash;
      && relatorio.Ok? && relatorio.value.valido && relatorio.value.status == ASSINADO
      && relatorio.value.hashDocumento == Some(hash)
      && relatorio.value.dadosAssinatura == r'[cndId].dadosAssinatura
      && DownloadCnd(r', codigo).Ok?
      && DownloadCnd(r', codigo).value.corpo == DocumentoAssinado(r[cndId].documentoPdf.value, assinatura)
      && ValidarHash(r', sha256Hex, codigo, hash)
  {
    var r' := ProcessarAssinatura(r, cndId, assinatura, sha256Hex, agora);
    var codigo := r[cndId].codigoValidacao;
    assert CodigosUnicos(r') by {
      assert forall i :: i in r ==> r'[i].codigoValidacao == r[i].codigoValidacao;
    }
    assert r'[cndId].codigoValidacao == codigo;
    var hash := r'[cndId].dadosAssinatura.value.hash;
    assert HexMinusculo(hash);
    assert Trim(hash) == hash;
  }
}

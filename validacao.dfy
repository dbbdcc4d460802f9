/**
 * `CndValidacaoService`: the request fingerprint, the anti-fraud gate as a
 * function of the stored rows, the validation-code generator, and the two
 * read-only lookups by code (status report and document download).
 */
module Validacao {
  import opened Wrappers
  import opened Erros
  import opened Texto
  import opened Calendario
  import opened Requisicao
  import opened Entidades
  import opened Repositorios

  const MAX_TENTATIVAS_HORA: int := 5
  const PREFIXO_CODIGO: string := "CND"
  const NAO_DISPONIVEL: string := "N/A"

  /** The text the fingerprint hashes: the unit id, then `comPeriodo`, then `comAssinatura`, joined by `|`. */
  function TextoParametros(unidadeId: int, request: UnidadeCndRequest): (s: string)
    ensures Ascii(s)
  {
    LongToString(unidadeId) + "|" + BooleanToString(request.comPeriodo) + "|" + BooleanToString(request.comAssinatura)
  }

  /**
   * Two requests give the same fingerprint text exactly when they name the
   * same unit and agree on both options; the channel plays no part.
   */
  lemma {:induction false} TextoParametrosInjetivo(u1: int, r1: UnidadeCndRequest, u2: int, r2: UnidadeCndRequest)
    ensures TextoParametros(u1, r1) == TextoParametros(u2, r2)
        <==> u1 == u2 && r1.comPeriodo == r2.comPeriodo && r1.comAssinatura == r2.comAssinatura
  {
    if TextoParametros(u1, r1) == TextoParametros(u2, r2) {
      MesmoTextoMesmosParametros(u1, r1, u2, r2);
    }
  }

  lemma MesmoTextoMesmosParametros(u1: int, r1: UnidadeCndRequest, u2: int, r2: UnidadeCndRequest)
    requires TextoParametros(u1, r1) == TextoParametros(u2, r2)
    ensures u1 == u2 && r1.comPeriodo == r2.comPeriodo && r1.comAssinatura == r2.comAssinatura
  {
    var a1, p1, s1 := LongToString(u1), BooleanToString(r1.comPeriodo), BooleanToString(r1.comAssinatura);
    var a2, p2, s2 := LongToString(u2), BooleanToString(r2.comPeriodo), BooleanToString(r2.comAssinatura);
    Reagrupa(a1, p1, s1);
    Reagrupa(a2, p2, s2);
    SemBarra(a1);
    SemBarra(a2);
    PrimeiraBarra(a1, p1 + "|" + s1, a2, p2 + "|" + s2);
    LongToStringInjetivo(u1, u2);
    PrimeiraBarra(p1, s1, p2, s2);
    BooleanToStringInjetivo(r1.comPeriodo, r2.comPeriodo);
    BooleanToStringInjetivo(r1.comAssinatura, r2.comAssinatura);
  }

  lemma Reagrupa(a: string, p: string, s: string)
    ensures a + "|" + p + "|" + s == a + "|" + (p + "|" + s)
  {
  }

  lemma SemBarra(n: string)
    requires forall i :: 0 <= i < |n| ==> IsDigit(n[i]) || n[i] == '-'
    ensures '|' !in n
  {
  }

  /** Splitting at the first `|` undoes joining with `|` when the left part holds none. */
  lemma PrimeiraBarra(x: string, y: string, x': string, y': string)
    requires '|' !in x && '|' !in x'
    requires x + "|" + y == x' + "|" + y'
    ensures x == x' && y == y'
  {
    var s := x + "|" + y;
    PosicaoDaBarra(x, y);
    PosicaoDaBarra(x', y');
    assert |x| == |x'|;
    assert x == s[..|x|] && x' == s[..|x|];
    assert y == s[|x| + 1..] && y' == s[|x| + 1..];
  }

  lemma PosicaoDaBarra(x: string, y: string)
    requires '|' !in x
    ensures (x + "|" + y)[|x|] == '|'
    ensures forall k :: 0 <= k < |x| ==> (x + "|" + y)[k] != '|'
  {
    assert forall k :: 0 <= k < |x| ==> (x + "|" + y)[k] == x[k];
  }

  /** `calcularHash`: SHA-256, in hex, of the UTF-8 bytes of the fingerprint text. */
  function CalcularHash(sha256Hex: Sha256Hex, unidadeId: int, request: UnidadeCndRequest): (h: string)
    ensures HexMinusculo(h)
  {
    sha256Hex(Utf8(TextoParametros(unidadeId, request)))
  }

  /** The fingerprint ignores the channel: requests that differ only there share it. */
  lemma CalcularHashIgnoraCanal(sha256Hex: Sha256Hex, unidadeId: int, r1: UnidadeCndRequest, r2: UnidadeCndRequest)
    requires r1.comPeriodo == r2.comPeriodo && r1.comAssinatura == r2.comAssinatura
    ensures CalcularHash(sha256Hex, unidadeId, r1) == CalcularHash(sha256Hex, unidadeId, r2)
  {
  }

  /** The rows the gate's query looks at for a request at instant `agora`: the last hour. */
  function UltimaCnd(r: Registros, sha256Hex: Sha256Hex, unidadeId: int, request: UnidadeCndRequest, agora: Instante): Consulta
  {
    FindByUnidadeIdAndHashParametrosAndDtCriacaoAfter(
      r, unidadeId, CalcularHash(sha256Hex, unidadeId, request), agora - SEGUNDOS_POR_HORA)
  }

  /** The stored rows after a row's attempt counter is raised by one and saved. */
  function Incrementado(r: Registros, id: int): (r': Registros)
    requires id in r
    ensures r'.Keys == r.Keys
    ensures r'[id] == r[id].(tentativasEmissao := r[id].tentativasEmissao + 1)
    ensures forall j :: j in r && j != id ==> r'[j] == r[j]
  {
    r[id := r[id].(tentativasEmissao := r[id].tentativasEmissao + 1)]
  }

  /**
   * `validarAntiFraude` as a function of the stored rows: `Ok` carries the rows
   * after the gate, `Err` the exception it throws. `ip` is accepted and unused,
   * as in the source.
   */
  function AntiFraude(r: Registros, sha256Hex: Sha256Hex, unidadeId: int, request: UnidadeCndRequest,
                      ip: string, agora: Instante): (res: Result<Registros, Erro>)
    ensures var q := UltimaCnd(r, sha256Hex, unidadeId, request, agora);
      && (q == Nenhum <==> res == Ok(r))
      && (q == Varios <==> res == Err(ResultadoNaoUnico))
      && (res == Err(MuitasTentativas) <==> q.Um? && r[q.id].tentativasEmissao >= MAX_TENTATIVAS_HORA)
      && (q.Um? && r[q.id].tentativasEmissao < MAX_TENTATIVAS_HORA ==> res == Ok(Incrementado(r, q.id)))
    ensures res.Err? ==> res.error == ResultadoNaoUnico || res.error == MuitasTentativas
  {
    match UltimaCnd(r, sha256Hex, unidadeId, request, agora)
    case Nenhum => Ok(r)
    case Varios => Err(ResultadoNaoUnico)
    case Um(id) =>
      if r[id].tentativasEmissao >= MAX_TENTATIVAS_HORA then Err(MuitasTentativas)
      else Ok(Incrementado(r, id))
  }

  /** The gate's decision does not depend on the channel nor on the caller's address. */
  lemma AntiFraudeIgnoraCanalEIp(r: Registros, sha256Hex: Sha256Hex, unidadeId: int,
                                 r1: UnidadeCndRequest, r2: UnidadeCndRequest, ip1: string, ip2: string, agora: Instante)
    requires r1.comPeriodo == r2.comPeriodo && r1.comAssinatura == r2.comAssinatura
    ensures AntiFraude(r, sha256Hex, unidadeId, r1, ip1, agora) == AntiFraude(r, sha256Hex, unidadeId, r2, ip2, agora)
  {
    CalcularHashIgnoraCanal(sha256Hex, unidadeId, r1, r2);
  }

  /**
   * `gerarCodigoValidacao`: "CND", the date of `agora` as yyMMdd, and the
   * random draw `aleatorio` (`nextInt(1000)`) as three zero-padded digits.
   */
  function GerarCodigoValidacao(agora: Instante, aleatorio: nat): (codigo: string)
    requires aleatorio < 1000
    ensures |codigo| == 12 && codigo[..3] == PREFIXO_CODIGO && AllDigits(codigo[3..])
    ensures ValorDecimal(codigo[3..5]) == DataDe(agora).ano % 100
    ensures ValorDecimal(codigo[5..7]) == DataDe(agora).mes % 100
    ensures ValorDecimal(codigo[7..9]) == DataDe(agora).dia % 100
    ensures ValorDecimal(codigo[9..]) == aleatorio
  {
    var data, sufixo := FormatoYYMMDD(agora), TresDigitos(aleatorio);
    FatiasDoCodigo(PREFIXO_CODIGO, data, sufixo);
    PREFIXO_CODIGO + data + sufixo
  }

  /** Where the prefix, the date and the draw sit in a 12-character code. */
  lemma FatiasDoCodigo(prefixo: string, data: string, sufixo: string)
    requires |prefixo| == 3 && |data| == 6 && |sufixo| == 3
    ensures var c := prefixo + data + sufixo;
      && |c| == 12 && c[..3] == prefixo && c[3..] == data + sufixo && c[9..] == sufixo
      && c[3..5] == data[0..2] && c[5..7] == data[2..4] && c[7..9] == data[4..6]
  {
    var c := prefixo + data + sufixo;
    assert c[3..] == data + sufixo;
    assert c[3..9] == data;
  }

  /** Codes drawn on the same day collide only when the draws are equal. */
  lemma GerarCodigoValidacaoInjetivo(t1: Instante, a1: nat, t2: Instante, a2: nat)
    requires a1 < 1000 && a2 < 1000
    requires GerarCodigoValidacao(t1, a1) == GerarCodigoValidacao(t2, a2)
    ensures a1 == a2
    ensures DataDe(t1).ano % 100 == DataDe(t2).ano % 100
    ensures DataDe(t1).mes % 100 == DataDe(t2).mes % 100 && DataDe(t1).dia % 100 == DataDe(t2).dia % 100
  {
  }

  /** The validation report (`CndValidacaoResponse`). */
  datatype CndValidacaoResponse = CndValidacaoResponse(
    codigoValidacao: string,
    valido: bool,
    status: string,
    dataEmissao: Instante,
    dataAssinatura: Option<Instante>,
    nomeCondominio: string,
    unidadeCodigo: string,
    bloco: Option<string>,
    hashDocumento: Option<string>,
    dadosAssinatura: Option<DadosAssinatura>)

  /** The report built for one row; the row's `unidade` is the unit table's row with its `unidadeId`. */
  function Relatorio(cnd: UnidadeCnd, us: Unidades, sha256Hex: Sha256Hex, codigo: string): (v: CndValidacaoResponse)
    ensures v.codigoValidacao == codigo
    ensures v.valido <==> cnd.status == ASSINADO
    ensures v.status == cnd.status && v.dataEmissao == cnd.dtCriacao && v.dataAssinatura == cnd.dtAssinatura
    ensures v.dadosAssinatura == cnd.dadosAssinatura
    ensures v.hashDocumento.Some? <==> cnd.documentoAssinado.Some?
    ensures cnd.documentoAssinado.Some? ==> v.hashDocumento == Some(sha256Hex(cnd.documentoAssinado.value))
    ensures cnd.unidadeId !in us ==>
      v.nomeCondominio == NAO_DISPONIVEL && v.unidadeCodigo == NAO_DISPONIVEL && v.bloco == Some(NAO_DISPONIVEL)
    ensures cnd.unidadeId in us ==>
      v.unidadeCodigo == us[cnd.unidadeId].codigo && v.bloco == us[cnd.unidadeId].bloco
    ensures cnd.unidadeId in us && us[cnd.unidadeId].condominio.Some? ==>
      v.nomeCondominio == us[cnd.unidadeId].condominio.value.razaoSocial
    ensures cnd.unidadeId in us && us[cnd.unidadeId].condominio.None? ==> v.nomeCondominio == NAO_DISPONIVEL
  {
    var unidade := if cnd.unidadeId in us then Some(us[cnd.unidadeId]) else None;
    CndValidacaoResponse(
      codigo,
      cnd.status == ASSINADO,
      cnd.status,
      cnd.dtCriacao,
      cnd.dtAssinatura,
      if unidade.Some? && unidade.value.condominio.Some? then unidade.value.condominio.value.razaoSocial else NAO_DISPONIVEL,
      if unidade.Some? then unidade.value.codigo else NAO_DISPONIVEL,
      if unidade.Some? then unidade.value.bloco else Some(NAO_DISPONIVEL),
      if cnd.documentoAssinado.Some? then Some(sha256Hex(cnd.documentoAssinado.value)) else None,
      cnd.dadosAssinatura)
  }

  /** `validarPorCodigo`: the report of the row with that code, or "CND não encontrada". */
  function ValidarPorCodigo(r: Registros, us: Unidades, sha256Hex: Sha256Hex, codigo: string): (res: Result<CndValidacaoResponse, Erro>)
    ensures res == Err(CndNaoEncontrada) <==> forall i :: i in r ==> r[i].codigoValidacao != codigo
    ensures CodigosUnicos(r) ==>
      forall i :: i in r && r[i].codigoValidacao == codigo ==> res == Ok(Relatorio(r[i], us, sha256Hex, codigo))
    ensures res.Ok? ==> (res.value.valido <==> res.value.status == ASSINADO)
  {
    match FindByCodigoValidacao(r, codigo)
    case Nenhum => Err(CndNaoEncontrada)
    case Varios => Err(ResultadoNaoUnico)
    case Um(id) => Ok(Relatorio(r[id], us, sha256Hex, codigo))
  }

  /**
   * `obterDocumentoAssinado`: the signed document when there is one, else the
   * unsigned PDF, else "Documento não disponível"; an unknown code fails.
   */
  function ObterDocumentoAssinado(r: Registros, codigo: string): (res: Result<Bytes, Erro>)
    ensures res == Err(CndNaoEncontrada) <==> forall i :: i in r ==> r[i].codigoValidacao != codigo
    ensures CodigosUnicos(r) ==> forall i :: i in r && r[i].codigoValidacao == codigo ==>
      && (r[i].documentoAssinado.Some? ==> res == Ok(r[i].documentoAssinado.value))
      && (r[i].documentoAssinado.None? && r[i].documentoPdf.Some? ==> res == Ok(r[i].documentoPdf.value))
      && (r[i].documentoAssinado.None? && r[i].documentoPdf.None? ==> res == Err(DocumentoNaoDisponivel))
  {
    match FindByCodigoValidacao(r, codigo)
    case Nenhum => Err(CndNaoEncontrada)
    case Varios => Err(ResultadoNaoUnico)
    case Um(id) =>
      var cnd := r[id];
      if cnd.documentoAssinado.Some? then Ok(cnd.documentoAssinado.value)
      else if cnd.documentoPdf.Some? then Ok(cnd.documentoPdf.value)
      else Err(DocumentoNaoDisponivel)
  }
}
